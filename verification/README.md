# kube-loop, verified

kube-loop connects a desktop to a Kubernetes cluster through a Gateway Pod. It routes the cluster's addresses to the
desktop, and turns Services around: Exchange, Mirror and Preview send a Service's traffic to a local port. This project
models the parts of it whose correctness depends on interleaving, on arithmetic over address bits or on bytes cut up
on the way, and proves what they are meant to keep.

Run `dafny verify dfyconfig.toml` to check everything.

## The parts

- **Intercept lifecycle** (`Intercepts`, `Registry`, `HostRoutes`, `ControlClients`, `Manager`, `Lifecycle*`). The
  registry, the control session, the start transaction and the manager are classes whose methods are the critical
  sections. Each is proved equal to a function of the state the mutex protects. `Lifecycle` uses those functions as the
  steps of a state machine in which starts, stops, StopAll, recoveries, lost channels and rollbacks interleave at every
  point where the lock is dropped. Its ledgers say what each channel has acknowledged and what became of each lease.
  Four invariants are kept by every step: the registry's (`LifecycleRegistry`), the leases' (`LifecycleLeases`), the
  routes' (`LifecycleRoutes`) and the registrations' (`LifecycleReplay`, `LifecycleReplaySteps`). `LifecycleRuns`
  states them of every run, `LifecycleRecovery` what a recovery leaves registered, `LifecycleChannels` that nothing
  stays registered without an owner, and `LifecycleHosts` what the hosts of `ServiceHosts` mean for the routes;
  `LifecycleRestart` and `LifecycleLeftover` hold runs that show what fails.
- **Gateway** (`Gateway`, `GatewaySystem`, `GatewayRuns`, `GatewayStreams`, `GatewayTenants`, `GatewayAcks`,
  `GatewayTexts`). The server's maps as a class; its sections, system calls, timers and accepts as a state machine; and
  its replies.
- **CIDR discovery and routes** (`Ordering`, `Addresses`, `CidrInference`, `Compaction`, `Discovery`, `Routes`).
  Addresses are bit strings with a family; the loops over bytes, masks and maps are methods proved against sets of
  prefixes.
- **Tunnel protocol** (`Bytes`, `Streams`, `ControlFrames`, `ControlStreams`, `TunnelFrames`, `DatagramRelay`) and the
  **control channel** on it (`ControlChannel`, `ControlReader`).
- **Mirror's shadow** (`ShadowWriters`, `ShadowRuns`) and **resumable transfer** (`Transfers`).

## What turned out false, and when it holds

- Starting over runtimes that an earlier StopAll left behind loses their registrations
  (`LifecycleRestart.RestartLosesRegistrations`); the new channel misses nothing if and only if no published runtime
  has a port (`LifecycleReplaySteps.ConnectNeedsEmptyRegistry`).
- After a recovery the registered ports can be more than the published ones (`LifecycleLeftover.RecoveryLeavesPort`);
  they are the same if and only if no stop committed while it was under way (`LifecycleRecovery.RecoveredExactly`).
- The writer of control messages allows error texts of 4096 bytes, the reader 1312; a longer one ends the channel
  (`ControlFrames.OversizedErrorHidesRest`), and nothing else does (`ControlChannel.ReadStopsOnlyAtOversized`). None of
  the Gateway's own texts is that long (`GatewayTexts.NoReplyStopsTheLoop`).
- Listen ports are exact only for the first 45535, and then not before the counter comes round (`Manager.PortBudget`,
  `Registry.OverflowedPortNotReplayed`).
- Host routes know no protocol, so TCP and UDP mappings of one number overwrite each other
  (`HostRoutes.ProtocolsCollide`); a port keeps its route if and only if the last port of its number has the same
  (`HostRoutes.RouteKept`).
- A stream may wait for a tenant that is gone (`GatewayTenants.StreamOutlivesItsTenant`); none does if and only if every
  stream's tenant is active when it is offered, which nobody checks (`GatewayTenants.LiveExactlyIfOffersAre`).
- When stream ids come round, a timer can claim another's stream (`GatewayTenants.TimerClaimsAnother`); before, it
  cannot (`GatewayStreams.ClaimedOnce`). The run takes 2^64 streams while one waits, although the waiting stream's own
  timer was set for 15 seconds: only a timer that may be late without limit makes it possible.
- A transfer can report success and leave something else than its source: a mixture, when the source is rewritten to
  its old size within one second (`Transfers.SameSecondMixes`), or another source's contents, when it is replaced
  between an attempt's stat and its read (`Transfers.ReplacedInBetween`). Success means the source if and only if all
  that can be read after a passing stat is a start of the source or begins with it (`Transfers.DeliversExactly`); when
  nothing changes between a stat and its read, that is: if and only if size and second determine the content
  (`Transfers.DeliversIfIdentified`).

## Conventions

I/O is a nondeterministic success or failure, or one the caller of the model chooses. A control round trip in the
lifecycle machine is acknowledged, refused or on a channel that is gone; that a reply answers its own request is proved
in `ControlChannel`. That the Gateway refuses an id it already has and a port below 1024, which
`ControlClients.ControlClient.Register` takes for granted, is proved in `GatewayRuns.PublishedIsOwned` and
`Gateway.Server.CheckRegister`; that its ledger is what the Gateway holds for the session, in
`GatewayAcks.AckedIsOwned`. Object identity (runtimes, sessions, sockets) is a number. A runtime's number is that of the
start that made it, and so is its lease's. Sorting by text takes any strict total order on texts.

## Model

| member | source | states |
|---|---|---|
| `ControlFrames.DecodeInvertsEncode` | internal/tunnel/control.go:63-183 | every payload the encoder makes decodes to what the message says |
| `ControlFrames.EncodeInvertsDecode` | internal/tunnel/control.go:63-183 | a payload that decodes re-encodes to the same bytes, unless (and only unless) it is an error text over 4096 bytes |
| `ControlFrames.PayloadSizes` | internal/tunnel/control.go:51-53 | a message fits the reader's limit if and only if it is not an error text over 1312 bytes |
| `ControlFrames.ReadFrameInvertsFrame` | internal/tunnel/control.go:30-61 | any written frame followed by any bytes reads back as the message and those bytes, or as a size error exactly for error texts over 1312 bytes |
| `ControlFrames.ReadFrameExact` | internal/tunnel/control.go:44-61 | the reader accepts only bytes a writer makes, and consumes exactly them |
| `ControlFrames.ReadAllInvertsFrames` | internal/tunnel/control.go:30-61 | a concatenation of frames reads back as the messages in order, and what follows is read as if it stood alone |
| `ControlFrames.FramesInjective` | internal/tunnel/control.go:30-61 | two message lists with the same bytes say the same |
| `ControlFrames.OversizedErrorHidesRest` | internal/tunnel/control.go:51-53 | one error frame of 1313 bytes or more ends the read loop and hides every message after it |
| `ControlFrames.FrameBytes` | internal/tunnel/control.go:63-115 | one frame of each kind, byte by byte, with the limits as numbers |
| `ControlStreams.WriteControlMessage` | internal/tunnel/control.go:30-42 | a refused message writes nothing, a written one adds exactly its frame, a failure leaves a prefix of it |
| `ControlStreams.ReadControlMessage` | internal/tunnel/control.go:44-61 | reads what the bytes say and takes nothing beyond the frame |
| `Streams.WriteAll` | internal/tunnel/protocol.go:234-246 | for every schedule of short writes, success means all bytes went out once and in order, failure a prefix |
| `TunnelFrames.ReadInvertsGreeting` | internal/tunnel/protocol.go:58-147 | session header, open, control and accept requests are read back with their token, and the tail is left alone |
| `TunnelFrames.ReadGreetingExact` | internal/tunnel/protocol.go:77-147 | the Gateway accepts only bytes some client writer makes, and consumes exactly those |
| `TunnelFrames.ReadInvertsStatus` | internal/tunnel/protocol.go:149-187 | a status is read back (an error text cut to 4096 bytes) and the tail is left alone |
| `TunnelFrames.ReadStatusExact` | internal/tunnel/protocol.go:162-187 | a status that reads is one the writer makes |
| `TunnelFrames.ReadInvertsDatagram` | internal/tunnel/protocol.go:189-218 | a datagram reads back, with its tail, if and only if its size is one the writer accepts |
| `TunnelFrames.ReadDatagramExact` | internal/tunnel/protocol.go:201-218 | a datagram that reads is one the writer makes, consumed exactly |
| `TunnelFrames.ReadInvertsDatagrams` | internal/tunnel/protocol.go:189-218 | a stream of datagrams reads back in order, whatever follows |
| `TunnelFrames.GreetingLayout` | internal/tunnel/protocol.go:58-246 | greetings, statuses and a datagram byte by byte, with the limits as numbers |
| `DatagramRelay.ReadDatagram` | internal/tunnel/protocol.go:201-218 | the caller's buffer is reused when large enough and replaced when not, and holds the datagram either way |
| `DatagramRelay.Relay` | internal/gateway/server.go:166-180 | with one buffer reused for all, every datagram goes out unchanged and in order |
| `DatagramRelay.RelayStream` | internal/gateway/server.go:166-180 | a sender's datagrams through a relay that meets no failure are the datagrams sent |
| `ControlReader.ControlReader.ReadLoop` | internal/intercept/control.go:64-89 | with callers receiving between any two messages: notices are passed on in order, replies are received and queued in order unless one is dropped, none is dropped if there is room for all, and the loop ends closed where the bytes stop making messages |
| `ControlReader.HearWritten` | internal/intercept/control.go:64-89 | from messages written to what a caller hears: what ready gains is the inbound notices, each as often as written and in the order written; so are the replies unless one is dropped, and none is while at most eight messages come |
| `ControlReader.NoticesOrdered` | internal/intercept/control.go:77-81 | the notices of a list of messages are picked from it in its order |
| `ControlReader.NoticesCounted` | internal/intercept/control.go:77-81 | every inbound notice is passed on as often as it came, and nothing else is |
| `ControlReader.RepliesOrdered` | internal/intercept/control.go:82-87 | the replies of a list of messages are picked from it in its order |
| `ControlReader.RepliesCounted` | internal/intercept/control.go:82-87 | every reply is queued as often as it came, and nothing else is |
| `ControlChannel.ReadsFirst` | internal/intercept/control.go:72-88 | however the bytes were cut up, what can be read is the first frame begun, whole |
| `ControlChannel.StepKeeps` | internal/intercept/control.go:64-131 | every step of callers, listeners, control loop and read loop keeps: whole frames in order, at most one request in flight, and it the one waited for |
| `ControlChannel.RepliesMatch` | internal/intercept/control.go:107-131 | in every run without a timeout a round trip receives the answer to its own request, the reply queue never holds two, none is dropped, and notices are heard in order |
| `ControlChannel.NoNoticeLost` | internal/gateway/reverse_tcp.go:37-42 | when nothing is unread, every notice written has been heard |
| `ControlChannel.ReadStopsOnlyAtOversized` | internal/gateway/reverse.go:96-100 | once whole frames have arrived, only an error text over 1312 bytes stops the read loop |
| `ControlChannel.ReadIsAlwaysOfAMessage` | internal/gateway/reverse.go:96-100 | bytes that read as a message are a message somebody wrote, never a piece of two |
| `CidrInference.CommonOfBytes` | internal/cluster/discovery/cidr.go:113-133 | the byte loop and the mask loop give the longest common start of two addresses' bits |
| `CidrInference.CommonPrefixBits` | internal/cluster/discovery/cidr.go:113-133 | the loops on the 16-byte forms, offset for IPv4 |
| `CidrInference.CommonBytesAreBits` | internal/cluster/discovery/cidr.go:113-133 | within a family, comparing the 16-byte forms from their offset is comparing the addresses |
| `CidrInference.FirstDecides` | internal/cluster/discovery/cidr.go:91-99 | the least agreement with the first element is the agreement of all pairs |
| `CidrInference.InferCidrs` | internal/cluster/discovery/cidr.go:75-111 | the two loops give exactly the specified set for each family |
| `CidrInference.InferredCovers` | internal/cluster/discovery/cidr.go:75-111 | every observed address lies in an inferred range |
| `CidrInference.InferredInBounds` | internal/cluster/discovery/cidr.go:75-111 | every range is a /12 to /24, or a /48 to /64 |
| `CidrInference.InferredMerges` | internal/cluster/discovery/cidr.go:91-108 | when a range of admissible length holds all of a family's addresses, the result is one range, and the longest such |
| `CidrInference.InferredUnmerged` | internal/cluster/discovery/cidr.go:91-108 | otherwise each observed network stands for itself |
| `CidrInference.InferredOrderFree` | internal/cluster/discovery/cidr.go:75-111 | the result depends on the set of addresses only |
| `Compaction.KeepMaximal` | internal/cluster/discovery/cidr.go:160-175 | the greedy pass over sorted prefixes keeps exactly the maximal ones, in order |
| `Compaction.CompactCidrs` | internal/cluster/discovery/cidr.go:144-180 | the result is the list of the maximal prefixes, strictly sorted |
| `Compaction.BeforeIsOrder` | internal/cluster/discovery/cidr.go:152-159 | the comparison is a strict total order, so the sort has one result |
| `Compaction.CompactedOrderFree` | internal/cluster/discovery/cidr.go:144-180 | map order and repetitions do not show in the list |
| `Compaction.CompactedAddresses` | internal/cluster/discovery/cidr.go:144-180 | an address is in the list's ranges if and only if it was in the input's |
| `Compaction.CompactedDisjoint` | internal/cluster/discovery/cidr.go:144-180 | no address lies in two ranges of the list |
| `Compaction.LexIsNumeric` | internal/cluster/discovery/cidr.go:152-159 | bits of one length compare as the numbers they stand for |
| `Compaction.CompactedAscends` | internal/cluster/discovery/cidr.go:152-159 | in the list IPv4 comes first, then shorter prefixes first, then lower addresses first |
| `Addresses.CoversIsContainment` | internal/cluster/discovery/cidr.go:166-170 | the covering test is containment of address sets, both ways |
| `Addresses.OverlapIsCovering` | internal/cluster/discovery/cidr.go:166-170 | two prefixes share an address only if one covers the other |
| `Routes.ClusterRoutes` | internal/singbox/routes.go:11-42 | the sorted list of every parsed source, each once; errors exactly for a prefix that does not parse and for no routes |
| `Routes.DiscoveryRoutes` | internal/networkdiag/diagnostics.go:61-90 | the diagnostics' list of the same sources |
| `Routes.RoutesAgree` | internal/singbox/routes.go:11-42 | two lists of one route set are the same list |
| `Routes.RoutedAddresses` | internal/singbox/routes.go:11-42 | an address is routed if and only if it lies in a Pod CIDR, in a Service CIDR, or, only when there are no Service CIDRs, is a Service IP |
| `Routes.InstallAndDiagnose` | internal/networkdiag/diagnostics.go:61-90 | whenever clusterRoutes succeeds, discoveryRoutes gives the same list |
| `Routes.AnalyzeRouteConflicts` | internal/networkdiag/diagnostics.go:92-137 | each pair of a target and a host route inside it is reported, once, in order |
| `Routes.ConflictIsContainment` | internal/networkdiag/diagnostics.go:92-115 | a pair is reported if and only if every address of the existing route is the target's |
| `Discovery.Discover` | internal/cluster/discovery/discovery.go:31-123 | the CIDR lists are the maximal prefixes of what is reported and what is inferred |
| `Discovery.ListedCovers` | internal/cluster/discovery/discovery.go:93-123 | every address behind a list lies in one of its prefixes |
| `Discovery.FallbackIdle` | internal/singbox/routes.go:21-31 | without Service CIDRs there are no Service addresses either, so the host-route fallback adds nothing |
| `Discovery.RouteCluster` | internal/cluster/discovery/discovery.go:31-123 | from discovery to routes: every Pod off the host network and every Service IP lies in a route; failure only when there is nothing to route |
| `Intercepts.DecimalInjective` | internal/intercept/start_transaction.go:40 | decimal texts of different numbers differ |
| `Intercepts.SubTextInjective` | internal/intercept/start_transaction.go:40 | different sub-ids have different texts, colons in the id notwithstanding |
| `Registry.ReplayIsSent` | internal/intercept/manager.go:215-232 | a port is replayed as it was sent if its listen port is 1..65535, and otherwise not at all |
| `Registry.ReplaysWhatWasSent` | internal/intercept/registry.go:119-136 | what recovery replays is exactly what the starts of the published runtimes sent |
| `Registry.SentIsOwn` | internal/intercept/start_transaction.go:37-50 | what is sent for a port carries its own runtime's id, number, protocol and, in range, listen port |
| `Registry.OverflowedPortNotReplayed` | internal/intercept/start_transaction.go:45 | a listen port past 65535 is sent cut to 16 bits and never replayed |
| `Registry.RuntimeRegistry.Reserve` | internal/intercept/registry.go:44-55 | a token is given exactly when the service is neither published nor starting |
| `Registry.RuntimeRegistry.Release` | internal/intercept/registry.go:61-65 | only the token that holds the reservation frees it |
| `Registry.RuntimeRegistry.Remove` | internal/intercept/registry.go:72-80 | both indexes lose the runtime, and nothing else |
| `Registry.RuntimeRegistry.Registrations` | internal/intercept/registry.go:119-136 | exactly the replayed registrations, each once, sorted by text whatever the maps' order |
| `Registry.RuntimeRegistry.FindPort` | internal/intercept/registry.go:138-156 | in whatever order the map is searched, the runtime that has the sub-id is found, with the port's own mapping, the primary address filed under the sub-id or none, and the runtime's mode and preview |
| `HostRoutes.LastPortWins` | internal/intercept/host_routes.go:33-70 | a key's route is that of the last port of its number, whatever the protocols |
| `HostRoutes.RouteKept` | internal/intercept/host_routes.go:50-68 | port i's own route is in the table if and only if the last port of its number has the same one; with distinct numbers none is lost |
| `HostRoutes.ProtocolsCollide` | internal/intercept/host_routes.go:8-11 | a Service with port 53 for TCP and UDP has its TCP traffic led to where UDP is mapped |
| `HostRoutes.LocalIsFirst` | internal/intercept/ports.go:142-154 | a port goes to the first mapping of its number and protocol, and without one to the same port of the loopback address |
| `HostRoutes.HostRouteRegistry.Install` | internal/intercept/host_routes.go:33-70 | the table is laid over what was there and the returned keys are exactly its keys |
| `HostRoutes.HostRouteRegistry.Remove` | internal/intercept/host_routes.go:72-76 | exactly the given keys go |
| `ControlClients.UnregisterBackward` | internal/intercept/control_session.go:102-104 | every id is asked to be unregistered, last first, and on a live channel none is left |
| `ControlClients.Attempt` | internal/intercept/control_session.go:81-105 | an attempt ends with the whole snapshot acknowledged, or closed with nothing left of it; it may be repeated exactly when the register that stopped it was refused as already registered or in use |
| `ControlClients.Redial` | internal/intercept/control_session.go:63-112 | a client comes back only with the whole snapshot; every attempt but the last was refused as transient; there is no client only if a dial failed, the context ended, the last attempt was refused for good or its channel died, or all six were refused as transient; every other connection is closed |
| `ControlClients.RegMapHolds` | internal/intercept/control_session.go:87-97 | with distinct ids every registration of the snapshot is on the client |
| `ControlClients.StartTransaction.RegisterPorts` | internal/intercept/start_transaction.go:32-52 | what is remembered is what was acknowledged, port by port, none of it registered before |
| `ControlClients.StartTransaction.Rollback` | internal/intercept/start_transaction.go:62-72 | nothing after a commit; otherwise each compensation once, latest first, then each registration, latest first |
| `ControlClients.LocalKeysLead` | internal/intercept/start_transaction.go:32-52 | each port is led to its own mapping: the first of its number and protocol, or the loopback address |
| `ControlClients.SentMapHolds` | internal/intercept/start_transaction.go:32-52 | each port is acknowledged as it was asked for |
| `ControlClients.SentKeys` | internal/intercept/start_transaction.go:32-52 | the ids sent for some ports are the ids remembered for them |
| `ControlClients.RunStart` | internal/intercept/start.go:69-124 | a start that publishes keeps its registrations and its lease; one that does not leaves a live client as it found it and releases its lease once |
| `Manager.PortBudget` | internal/intercept/manager.go:315-317 | the n-th listen port fits a uint16 if and only if the counter modulo 2^32 does; until the counter comes round, if and only if n <= 45535 |
| `Manager.PortsDiffer` | internal/intercept/manager.go:315-317 | the n-th allocation is port 20000 + n, so until that overflows an int32 no two are the same |
| `Manager.RouteIsTarget` | internal/intercept/host_routes.go:50-68 | a port's host route and its inbound target lead to the same place: mapping, primary address, mode and preview |
| `Manager.ControlSession.Connect` | internal/intercept/control_session.go:35-43 | the generation moves only if the dial succeeds |
| `Manager.ControlSession.FinishRecovery` | internal/intercept/control_session.go:157-167 | a channel is attached exactly in the recovery's own generation, while it is still recovering |
| `Manager.InterceptManager.AllocateListenPort` | internal/intercept/manager.go:315-317 | the counter wraps as a uint32 and is read as an int32 |
| `Manager.InterceptManager.Start` | internal/intercept/manager.go:111-143 | a second start and a failed dial change nothing; otherwise the manager is active, no longer stopping, and ready on the new client; the registry is kept as it is |
| `Manager.InterceptManager.BeginStart` | internal/intercept/start.go:34-53 | a reservation is taken exactly when the manager is active, the session ready and the service free |
| `Manager.InterceptManager.FinishStart` | internal/intercept/start.go:110-124 | published, routed and unreserved exactly when client, generation and reservation are what they were; else nothing changes |
| `Manager.InterceptManager.BeginStop` | internal/intercept/manager.go:274-287 | a stop begins exactly on a published runtime that is not being stopped, and marks it |
| `Manager.InterceptManager.StopFailed` | internal/intercept/manager.go:289-296 | the mark is taken off the same runtime only |
| `Manager.InterceptManager.CommitStop` | internal/intercept/manager.go:298-313 | runtime and routes go together, and only if the runtime is still the one marked |
| `Manager.InterceptManager.BeginStopAll` | internal/intercept/manager.go:234-252 | the session stops and the runtimes stay |
| `Manager.InterceptManager.BeginRecovery` | internal/intercept/manager.go:175-190 | what is to be replayed is read in the section that begins the recovery |
| `Manager.InterceptManager.FinishRecovery` | internal/intercept/manager.go:204-213 | attached exactly while active, not stopping and in the same generation |
| `Manager.InterceptManager.Recover` | internal/intercept/manager.go:172-213 | uninterrupted, a recovery closes the client there was and ends ready with every replayed port acknowledged on the new one, or with no client |
| `LifecycleRegistry.OneStartPerService` | internal/intercept/start.go:45-53 | two starts of one service never both hold its reservation |
| `LifecycleRegistry.ReleaseKeepsOthers` | internal/intercept/start.go:117-122 | a late deferred release never frees another start's reservation |
| `LifecycleRegistry.StepKeeps` | internal/intercept/registry.go:44-80 | every section keeps: byID and byKey inverse, no service reserved and published at once, every holder's token its own |
| `LifecycleLeases.StepKeeps` | internal/intercept/manager.go:274-313 | every section keeps the lease accounts: each phase of a start and its runtime say what became of the lease |
| `LifecycleLeases.StopFindsItsRuntime` | internal/intercept/manager.go:298-302 | the "runtime changed" branch of Stop is unreachable |
| `LifecycleLeases.NoOverlappingReleases` | internal/intercept/manager.go:284-296 | release calls on one lease never overlap, none follows one that succeeded, and a published runtime's lease was never rolled back |
| `LifecycleLeases.FreedWhilePublished` | internal/intercept/manager.go:289-303 | a published runtime's lease has been freed exactly while a stop stands between its successful release and its last section |
| `LifecycleLeases.LeaseAccounted` | internal/intercept/start_transaction.go:54-72 | a finished start that succeeded has its lease freed if and only if its runtime is gone or about to be removed by the stop that freed it; one that failed has had one rollback release |
| `LifecycleLeases.LeasesApart` | internal/intercept/start.go:68-124 | no two published runtimes share a lease |
| `LifecycleLeases.LeavesOnlyReleased` | internal/intercept/manager.go:284-313 | a runtime leaves the registry only by a stop whose release had come back with success before |
| `LifecycleRoutes.StepKeeps` | internal/intercept/host_routes.go:33-76 | every section keeps every route one that a published runtime wrote and remembers, whatever hosts services share |
| `LifecycleRoutes.CompleteStep` | internal/intercept/host_routes.go:33-76 | when services bring only hosts of their own, no section loses a published runtime's route |
| `LifecycleRoutes.TableHosts` | internal/intercept/host_routes.go:33-70 | a runtime's routes are for its service's hosts only |
| `LifecycleReplaySteps.StepKeeps` | internal/intercept/manager.go:172-213 | every section keeps: on a ready session all published ports are acknowledged and none is being dropped, and a recovery's snapshot covers what is published |
| `LifecycleReplaySteps.SnapshotCovers` | internal/intercept/registry.go:119-136 | what a recovery reads covers every port of every published runtime |
| `LifecycleReplaySteps.UnlistingClear` | internal/intercept/manager.go:305-312 | what a stop goes on to unregister is no starting port and no other stop's on its channel |
| `LifecycleReplaySteps.ConnectNeedsEmptyRegistry` | internal/intercept/manager.go:132-136 | on the channel a Start connects, nothing is missing if and only if no published runtime has a port |
| `LifecycleRuns.EveryRun` | internal/intercept/start.go:19-208 | every interleaving of starts, stops, recoveries and StopAll keeps registry, leases and route ownership |
| `LifecycleRuns.LeasesOverRuns` | internal/intercept/start.go:68-124 | in every run releases of a lease never overlap, and the lease of a start that is over is accounted for as above |
| `LifecycleRuns.StopNeverSurprised` | internal/intercept/manager.go:298-302 | in every run a stop whose release comes back finds its runtime, so the "runtime changed" branch is dead |
| `LifecycleRuns.ReadyMeansRegistered` | internal/intercept/manager.go:172-213 | in every run whose Starts find the registry empty, without a round-trip timeout and within the port budget: whenever the session is ready, every port of every published runtime is acknowledged on the attached channel as it was sent |
| `LifecycleRuns.SubsAreOwn` | internal/intercept/start_transaction.go:37-50 | in every run each published runtime is filed under its own id and its port keys carry it, which findPort and registrations rely on |
| `LifecycleRuns.ReplaysAsSent` | internal/intercept/registry.go:119-136 | in every such run recovery would replay exactly what the starts of the published runtimes sent |
| `LifecycleRuns.RoutesResolve` | internal/intercept/host_routes.go:78-84 | with disjoint hosts, every key a published runtime remembers leads to the route that runtime wrote |
| `LifecycleRuns.GenerationCounts` | internal/intercept/control_session.go:35-43 | the generation counts the connects, stops and recoveries there have been, so it only grows |
| `LifecycleRuns.PublishedUninterrupted` | internal/intercept/start.go:110-116 | a start publishes only if none of those came between its reservation and its commit; then the manager is active and the start's channel is the session's and not lost |
| `LifecycleRuns.RecoveryNeverOvertakes` | internal/intercept/manager.go:204-209 | a recovery attaches only if nothing newer began, and then over no other channel; an outdated one changes nothing |
| `LifecycleRuns.RecoveryIsAlwaysPossible` | internal/intercept/manager.go:136-213 | in every run an active manager is not stopping, so that one whose session is not recovering can begin a recovery; one that is recovering has an operation doing it, whose attachment would be accepted |
| `LifecycleRuns.ReservationsEnd` | internal/intercept/start.go:45-53 | in every run a reserved service has a start under way that holds it and will let it go |
| `LifecycleRecovery.SnapshotIds` | internal/intercept/manager.go:188 | the snapshot's ids are exactly the published runtimes' sub-ids |
| `LifecycleRecovery.IdsShrink` | internal/intercept/registry.go:72-80 | runtimes that leave take their ids with them, and each has some |
| `LifecycleRecovery.RecoveredExactly` | internal/intercept/manager.go:172-213 | from any good run's recovery to its attached channel: registered are exactly the published sub-ids if and only if no stop committed in between, and never fewer |
| `LifecycleChannels.AcknowledgedIsAccounted` | internal/intercept/manager.go:305-312 | in every good run each id acknowledged on the attached channel is a published runtime's, one a start has registered there, one a stop has yet to unregister there, or left by a stop that committed during the recovery that attached it |
| `LifecycleChannels.AcknowledgedIsPublished` | internal/intercept/start_transaction.go:62-81 | when nothing of that kind is under way or left, the acknowledged ids are exactly the published ones |
| `LifecycleChannels.StaleMeansStopped` | internal/intercept/manager.go:172-213 | a recovery leaves nothing behind if and only if no stop committed while it was under way |
| `LifecycleLeftover.RecoveryLeavesPort` | internal/intercept/manager.go:305-312 | there is a run in which a stop during a recovery leaves a port registered that nobody publishes |
| `LifecycleHosts.ServiceRoutesResolve` | internal/intercept/host_routes.go:33-112 | in every run whose starts bring serviceRewriteHosts of a cluster's Services with distinct addresses, every key a published runtime remembers leads to the route it wrote |
| `ServiceHosts.NamesDisjoint` | internal/intercept/host_routes.go:104-110 | Services with dot-free names share a DNS name only if they are one Service, in one form |
| `ServiceHosts.NameDots` | internal/intercept/host_routes.go:104-110 | a DNS name has one, two or four dots, so it is no IP address |
| `ServiceHosts.HostsAre` | internal/intercept/host_routes.go:86-112 | the hosts are the cluster IP, if there is one, and the three DNS names |
| `ServiceHosts.SharedHostIsSharedIp` | internal/intercept/host_routes.go:86-112 | two Services share a host if and only if they have the same cluster IP |
| `ServiceHosts.OneOwner` | internal/intercept/host_routes.go:86-112 | in a cluster a host belongs to one Service |
| `ServiceHosts.LabelsAreRegular` | internal/intercept/host_routes.go:114-116 | trimming and lower-casing keep every name made of DNS labels |
| `ServiceHosts.NormalizeForgets` | internal/intercept/host_routes.go:114-116 | surrounding space goes, capital ASCII letters become small, and nothing else changes |
| `LifecycleRestart.RestartLosesRegistrations` | internal/intercept/manager.go:111-143 | there is a run in which a Start over a runtime StopAll left behind is ready with that runtime's port not registered |
| `Gateway.Server.AddControl` | internal/gateway/reverse.go:60-65 | the session is added and its tenant's count raised |
| `Gateway.Server.RemoveControl` | internal/gateway/reverse.go:102-132 | in any map order: the session, its listeners and, with the tenant's last session, the tenant's streams go, and what is to be closed is exactly that |
| `Gateway.Server.DropListeners` | internal/gateway/reverse.go:110-116 | deleting while ranging takes the session's listeners and leaves every other |
| `Gateway.Server.DropPending` | internal/gateway/reverse.go:117-124 | deleting while ranging takes the tenant's streams and leaves every other |
| `Gateway.Server.CheckRegister` | internal/gateway/reverse.go:134-150 | passes exactly when the port is allowed, the key free and no listener has the port |
| `Gateway.Server.RegisterIntercept` | internal/gateway/reverse.go:134-190 | undisturbed, a registration succeeds exactly when the check passes and the port binds, and then belongs to the session |
| `Gateway.Server.PublishListener` | internal/gateway/reverse.go:180-187 | the key is checked again, and a listener already there stays |
| `Gateway.Server.UnregisterIntercept` | internal/gateway/reverse.go:192-206 | only the owner's listener is dropped |
| `Gateway.Server.NextStream` | internal/gateway/reverse_tcp.go:25 | the n-th stream id is n modulo 2^64 |
| `Gateway.Server.OfferPending` | internal/gateway/pending.go:11-24 | an id that is taken is refused |
| `Gateway.Server.TakePending` | internal/gateway/pending.go:26-30 | the stream, if it is there, and it is there no more |
| `Gateway.Server.TakePendingFor` | internal/gateway/pending.go:32-49 | taken exactly with the stream's own token; otherwise nothing changes |
| `Gateway.Server.TenantActive` | internal/gateway/server.go:150-154 | active exactly while the count is positive |
| `GatewayRuns.StepKeeps` | internal/gateway/reverse.go:60-206 | every section of every session, bind and close keeps tenant counts, owners and the place of every socket |
| `GatewayRuns.TenantCounts` | internal/gateway/reverse.go:60-109 | in every run a token's count is the number of its live sessions, with no zero entry |
| `GatewayRuns.NoSharedPort` | internal/gateway/reverse.go:134-187 | in every run no two published listeners share a network and port, given that the system binds a port once |
| `GatewayRuns.RegistrationStays` | internal/gateway/reverse.go:192-206 | no section but the owner's unregister or end touches a registration |
| `GatewayRuns.OwnerKeeps` | internal/gateway/reverse.go:102-206 | over any run, a registration stays its owner's until the owner unregisters or ends |
| `GatewayRuns.PublishedIsOwned` | internal/gateway/reverse.go:180-187 | a published registration is its session's, and its id is refused to every session of the token |
| `GatewayRuns.RemovedLeavesNothing` | internal/gateway/reverse.go:102-128 | a session's end takes its registrations out and every socket of them on its way to be closed |
| `GatewayRuns.TakenPortRefused` | internal/gateway/reverse.go:134-150 | a registration passes its check only from port 1024 on and only while no listener has the network and port |
| `GatewayRuns.PortsAreHeld` | internal/gateway/reverse.go:192-220 | in every run a bound port belongs to a listener that is published, being registered or about to be closed, so none is leaked |
| `GatewayStreams.TakeKeeps` | internal/gateway/pending.go:42-49 | taking a stream from the map is its one claim |
| `GatewayStreams.AcceptTakes` | internal/gateway/pending.go:32-49 | an accept with the stream's token takes it and is its one claim; any other changes nothing |
| `GatewayStreams.WithdrawTakes` | internal/gateway/pending.go:26-30 | a timer or a listener that takes a stream back leaves its id free, and is the one claim of the stream that waited under it |
| `GatewayStreams.StepKeeps` | internal/gateway/pending.go:11-49 | every section keeps: a stream is pending exactly from its offer to its one claim |
| `GatewayStreams.ClaimedOnce` | internal/gateway/pending.go:11-49 | in every run a stream is claimed at most once among accept, timeout, reply failure and tenant removal, by an accept only with its token, and until ids come round again by a timer only of its own |
| `GatewayStreams.OffersNeverCollide` | internal/gateway/reverse_tcp.go:25-36 | until 2^64 streams have been drawn no offer finds its id taken |
| `GatewayStreams.CollidingTimerClaimsAnother` | internal/gateway/pending.go:11-24 | past that, the refused stream's timer is armed and can claim the other stream |
| `GatewayTenants.LiveStep` | internal/gateway/pending.go:11-24 | no section but an offer can leave a pending stream without a live tenant, and an offer does if and only if its tenant is gone |
| `GatewayTenants.LiveExactlyIfOffersAre` | internal/gateway/reverse_tcp.go:25-36 | over any run no pending stream is ever without a live tenant if and only if every offered stream's tenant is active at the offer |
| `GatewayTenants.StreamOutlivesItsTenant` | internal/gateway/reverse_tcp.go:25-36 | for every token there is a run in which a stream waits for a tenant that is gone |
| `GatewayTenants.TimerClaimsAnother` | internal/gateway/pending.go:11-24 | there is a run, 2^64 streams long, in which a stream whose own timer has not come to fire is claimed by another's |
| `GatewayAcks.AckedIsOwned` | internal/gateway/reverse.go:78-87 | in every run the ids a session has had acknowledged and not unregistered since are exactly the ids of the listeners the Gateway holds for it |
| `GatewayTexts.TextsFit` | internal/gateway/reverse.go:134-190 | no error text the Gateway makes is empty or over 1312 bytes, even quoting the longest id |
| `GatewayTexts.TransientExactly` | internal/intercept/control_session.go:114-118 | of the Gateway's error texts, recovery takes as transient exactly those for a taken id, a taken port, and a failed listen whose reason says so |
| `GatewayTexts.RepliesCarried` | internal/gateway/reverse.go:80-91 | every error reply with such a text can be written and read |
| `GatewayTexts.NoReplyStopsTheLoop` | internal/gateway/reverse.go:78-92 | in every run with such replies, whenever whole frames have arrived the next one reads |
| `ShadowWriters.ShadowWriter.Write` | internal/intercept/mirror.go:245-259 | a copy is queued, or the shadow given up when sixteen wait; the caller is always told everything was taken |
| `ShadowWriters.ShadowWriter.Take` | internal/intercept/mirror.go:277-279 | payloads come out in order |
| `ShadowWriters.TeeOne` | internal/intercept/mirror.go:128-136 | one read goes to the shadow and then, whole or with an error, to the primary |
| `ShadowWriters.Tee` | internal/intercept/mirror.go:117-139 | through one reused buffer the primary gets the client's bytes in order whatever the shadow does, and queued copies stay what they were |
| `ShadowRuns.StepKeeps` | internal/intercept/mirror.go:245-293 | every step of callers, run loop, failures and Close keeps: received, in hand and queued make a prefix of what was written |
| `ShadowRuns.ReceivedIsPrefix` | internal/intercept/mirror.go:245-293 | in every run the shadow has received a prefix of what was written, at most sixteen payloads wait, and the queue is closed at most once |
| `ShadowRuns.NothingLost` | internal/intercept/mirror.go:245-293 | a shadow that neither overflowed nor failed has received or still holds everything |
| `Transfers.ProgressWriter.Write` | internal/filemanager/state.go:118-126 | the count follows the file through short writes, and a failure is reported at once |
| `Transfers.Receive` | internal/filemanager/transfer.go:51-61 | in pieces of any size, the partial file grows by exactly the bytes that arrive of the source from the offset on |
| `Transfers.Transfer.Download` | internal/filemanager/transfer.go:20-79 | every step and failure point of a download: success exactly when the partial file has reached the expected size and could be renamed (with leave to overwrite, after removing the destination), a changed source reported exactly when the stat differs, and otherwise the destination left alone, or with overwrite gone while the whole partial file stays |
| `Transfers.Transfer.Send` | internal/filemanager/transfer.go:97-121 | the redirection appends to or replaces the partial file, and counts what the reader handed out |
| `Transfers.Transfer.Upload` | internal/filemanager/transfer.go:81-132 | every step and failure point of an upload: success exactly when the transfer is complete, the destination may be written and the final move works; without overwrite, a destination that can be seen is kept, and reported exactly when the transfer is complete, the whole partial file staying |
| `Transfers.DownloadIsAttempt` | internal/filemanager/transfer.go:20-79 | a download keeps the partial file or grows it by source bytes, and success means exactly the expected number of bytes |
| `Transfers.UploadIsAttempt` | internal/filemanager/transfer.go:81-132 | so does an upload, of the partial file it saw |
| `Transfers.DestinationProtected` | internal/filemanager/transfer.go:122-126 | without overwrite, no sequence of uploads that can see the destination changes it or reports success |
| `Transfers.AttemptFits` | internal/filemanager/transfer.go:20-132 | an attempt that reads what is a start of the source, or begins with it, keeps the partial file a prefix of the source or longer than it, and success leaves the source |
| `Transfers.ResumesCorrectly` | internal/filemanager/transfer.go:21-59 | if all that is read after a passing stat is a start of the source or begins with it, any sequence of attempts, cut off anywhere, keeps the partial file so, and success leaves the source |
| `Transfers.DeliversExactly` | internal/filemanager/transfer.go:21-59 | stat and read taken apart, the task's own source being among what can be met: every sequence of downloads, and every sequence of uploads, that reports success leaves the source if and only if all that can be read after a passing stat is a start of the source or begins with it |
| `Transfers.DisagreementShows` | internal/filemanager/transfer.go:40-61 | for anything else that can be read there are two attempts that report success and leave something else |
| `Transfers.DeliversIfIdentified` | internal/filemanager/transfer.go:86-88 | when nothing changes between a stat and its read: every sequence of downloads, and every sequence of uploads, that reports success leaves the source if and only if size and second determine its content |
| `Transfers.VersionsMix` | internal/filemanager/transfer.go:40-61 | any two versions with the task's size and second can be spliced anywhere by two attempts, the second of which reports success |
| `Transfers.SameSecondMixes` | internal/filemanager/filesystem.go:268-270 | two versions of one size within one second, and the attempts that leave a mixture of them |
| `Transfers.ReplacedInBetween` | internal/filemanager/transfer.go:21-59 | a source replaced seconds later, between stat and read, is delivered in place of the task's |

## Left out

- Sockets, TLS, dialling, byte relaying and Kubernetes API calls: they appear as success or failure.
- The ten-second wait for a control reply: after it replies can be one behind, and no matching is claimed.
- StopAll as one call: its first section and the stops it makes one after the other are separate steps, and which error
  it returns is not modelled.
- The building of port lists from Service specifications (`resolveLocals`, `buildPortsForLocals`, `buildPreviewPorts`):
  a start gets any list of ports.
- The Gateway's and the context's addresses that the manager remembers: they are copied and passed on.
- Gateway UDP associations: unsynchronised fields and wall-clock idling. That a listener may take back a stream it
  offered is a step of the Gateway machine.
- Port-forward connection trackers, the SOCKS5 client and the sing-box configuration apart from its routes: their
  properties are easier members of the same kinds.
- Text parsing and normalisation of addresses, prefixes, protocols and hosts: values arrive parsed or as not parsable.
- Directory transfers, task states, overlapping attempts of one transfer, and a remote path that is a directory.
- ServiceHosts.NormalizeRouteHost: trims and lower-cases ASCII only; the other members take any normaliser.
- LifecycleHosts.ServiceRoutesResolve: takes a Service's cluster IP to stay the same over the run.
- GatewayTexts.TextsFit: takes the operating system's reason for a failed listen to be at most 1280 bytes, and %q to make
  at most four characters of a byte.
- GatewayAcks.AckedIsOwned: counts a registration from its entry into the table, where its acknowledgement is decided;
  desktop and Gateway are not joined into one machine.
- State publishing (`List`, `stateHub`, `AppendLog`): copies that promise no more than the state they copy.
- ControlChannel.RepliesMatch: covers runs without a reply timeout, because after one the code does not match replies.
- LifecycleRuns.ReadyMeansRegistered: covers runs whose Starts find the registry empty, that stay within 45535 listen
  ports and meet no reply timeout, because outside them the property is false.
- GatewayRuns.NoSharedPort: takes from the operating system that a port of a network is bound once.
- Manager.InterceptManager.Recover: is the whole call with nothing in between; its interleavings are in the lifecycle
  machine.
- Gateway.Server.RegisterIntercept: is the whole call with nothing in between; its interleavings are in the Gateway
  machine.
