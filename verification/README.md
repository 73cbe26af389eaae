# azvpn: what the daemon keeps true about the host

azvpn is a VPN daemon that owns state outside itself: kernel routes, a cleanup
manifest on disk, NRPT rules in two registry tables, files under
`/etc/resolver`, one openvpn child. This project models the code that keeps
those in step with its in-memory records, and proves what holds over every run.

| module | models |
|---|---|
| `Nets`, `Text`, `Numbers` | addresses and CIDR networks, the string functions the readers use, decimal and dotted-quad notation, netmasks |
| `Push`, `PushLaws` | the PUSH_REPLY reader |
| `Config`, `NilStrip` | route lines of the generated configuration; removal of nil placeholders from a profile |
| `Routes`, `RouteLaws` | the route ledger over a kernel table, with macOS keying (destination) and Windows keying (destination, next hop, interface) |
| `Forwarding`, `Tunnel` | longest-prefix-match forwarding (section 5.2.4.3 of RFC 1812), the `def1` split routes, what CONNECTED does to packets |
| `Recovery`, `RecoveryLaws` | applying a push, the cleanup manifest, start-up cleanup; whole runs with crashes, on both systems |
| `NetMon` | the network-change filter |
| `Attempt`, `AttemptLaws`, `RestartLaws` | the event loop of one attempt and its teardown; its restarts and counters, and restarts read off the inputs |
| `TeardownLaws`, `OutcomeLaws` | what one attempt or many put in force and leave behind; how an attempt ends and what connecting returns |
| `Retry`, `Slot` | the retry loop; the daemon's single connection slot under concurrent requests |
| `Nrpt`, `NrptLaws` | NRPT rule packing, ownership, crash in mid-install and mid-revert |
| `Resolver` | the `/etc/resolver` guard |
| `SplitDns` | the DNS manager over either of the two, as the event loop uses it |

Code that updates fields in place is a class whose methods are proved against a
function of the old state (`AfterApply`, `AfterClear`, `After`, `AfterUpdate`, `Exec` ...);
the lemmas are about those functions, so they hold of the methods. `Attempt.RunAttempt`
drives the route manager, the monitor, the manifest file and the DNS manager as objects,
and is proved equal to the fold of turns that `AttemptLaws` and `TeardownLaws` are about.
It also plays the world's part where an input says so, and carries two fields the daemon
does not have: which routes are foreign and which rule ids were ever minted.
Concurrency is interleaving: `Slot` steps are what one party does while it
holds the mutex, `Attempt` inputs are what the select loop handles in one turn.

## Where the code falls short of what one would expect

Each of these is stated as the exact condition under which the property holds,
or as a concrete run where it does not.

- Two pushed networks that differ only in host bits are one kernel route but two
  ledger entries. Dropping one deletes the route the ledger still lists for the
  other. The diff equals a reinstall exactly when this cannot happen
  (`RouteLaws.DiffRefinesReinstall`, `RouteLaws.AliasLosesRoute`, `RouteLaws.HostBitsAlias`).
- `apply` records the interface only on success and `diff` ignores it, so on a kernel
  keyed by interface a failed apply, or one on a new interface, followed by `clear`
  can leave routes behind (`RouteLaws.ApplyThenClear` says exactly when;
  `RouteLaws.FailedApplyLeaks` and `RouteLaws.MovedApplyLeaks` are such cases, and
  `TeardownLaws.WindowsAttemptLeaks` is a whole attempt). `TeardownLaws.AttemptLeavesExactly`
  says when an attempt leaves nothing, for every run on either system.
- Start-up deletes name no interface. They work by destination; with Windows keying they
  reach only routes without an interface (`RecoveryLaws.ManifestReach`), so a crash there is
  recovered from exactly when no other is left (`RecoveryLaws.CrashExactly`);
  `RecoveryLaws.WindowsCrashLeaks` is a run where it is not.
- A crash after the adds of a CONNECTED or a re-push and before the manifest is saved is
  recovered from only for destinations the previous manifest named
  (`RecoveryLaws.CrashBeforeSave`; `RecoveryLaws.FirstConnectLost` is a run where it is not).
- A directive `redirect-gateway` without flags is read, and a comment calls it full
  replacement mode (`crates/openvpn/src/management/push.rs:100-102`), but it adds
  no route (`Tunnel.NothingRedirected`).
- An NRPT install that does not mirror leaves the Group Policy copies of its own reused
  rules as they were. While that key exists they stay in force, stale
  (`NrptLaws.InstallTakesEffect`, `NrptLaws.StaleIsReachable`). The code comments disagree
  on the resolver: the header of `nrpt.rs` says Windows merges the two tables, the comments
  at lines 209-212 and 371-374 say the Group Policy key, once it exists, is read alone. The
  model follows the latter.
- An NRPT install that dies before the owner list is saved leaves the fresh rules it had
  put, for good, and when mirroring their Group Policy copies stay in force
  (`NrptLaws.CrashLeaksFreshIds`, `NrptLaws.FirstInstallLeaks`). A revert that dies loses
  nothing (`NrptLaws.RevertSurvivesCrash`).
- A push that withdraws its DNS suffixes or servers leaves the earlier resolver files in
  place until teardown, which the documentation of the manager allows (`SplitDns.FilesFollowPush`,
  `SplitDns.WithdrawnDnsStays`).
- The path check on a suffix does not rule out the names `.` and `..`. They are kept out only
  by how the DNS library answers (`Resolver.NamesStayInside`, `Resolver.DotsEscape`).
- The comment on nil stripping says CDATA blocks pass through untouched. A block that quotes
  a placeholder loses its opening with it; `NilStrip.CdataUntouched` is the exact condition.
- An IPv4 profile route with a prefix above 32 is printed as a host route
  (`Config.Ipv4RouteReadsBack`).
- `up` can return an error while the connection it started is still being retried:
  exactly when it looks after an attempt has published Exited or Failed and the retry
  loop goes on (`Slot.EarlyErrorExactly`, `Slot.EarlyErrorCause`, `Slot.ErrorMayComeEarly`).
- `ConnectionMetrics` documents `reconnects` as RECONNECTING transitions of this
  attempt; the code counts Connected to Reconnecting edges over all attempts of a
  connection (`AttemptLaws.ReconnectsAreOutages`). The two numbers are equal exactly when
  every change into Reconnecting comes straight from Connected
  (`AttemptLaws.OutagesAreTransitions`); `AttemptLaws.ChurnNotCounted` is a stream where they differ.

## Assumptions

- Pushed destinations stay clear of foreign ones (`Apart`): an add that finds its slot taken
  is adopted, so a foreign route there would be deleted later as our own.
- A delete succeeds or reports that the route is absent.
- Between a clear and the next one the interface index is constant where a lemma says
  `s.ifindex`; `ApplyThenClear` drops this assumption.
- Foreign routes and the manifest are covered on both systems without more. That nothing of
  ours stays in the table is stated as an exact condition on both; it holds after every run
  where deletes go by destination, and with Windows keying after steady runs: no apply puts
  an interface on record that some of its routes are not on, and the kernel moves no route
  to another interface. Applies that are whole and on one interface are steady
  (`TeardownLaws.WholeIsSteady`). `Tunnel`, `RecoveryLaws.CrashRecovers`,
  `RecoveryLaws.CrashBeforeSave` and `TeardownLaws.CrashAnywhere` are about the macOS keying.
- Fresh GUIDs are new. Other programs do not create rules under our ids, and where
  `Honest` is required, do not forge our file header.
- `Possible` also asks that the adds of a turn are adds of missing routes. That is no
  assumption about the daemon: `Attempt.EventLoop.TunnelState` ensures it.

## Model

| member | source | states |
|---|---|---|
| Routes.RouteManager.Apply | crates/core/src/route.rs:310-384 | the new table, ledger and recorded interface for whatever adds the kernel refuses; on failure the refused network is one still missing; the requests are one per stale route plus one per add tried, and only those: each add names its network without host bits, the interface asked for and the gateway (left out on macOS exactly when the interface is known), each delete the gateway and interface the route was installed with |
| Routes.RouteManager.DeleteStale | crates/core/src/route.rs:332-354 | the delete loop evicts exactly the stale routes, each with the gateway and interface it was installed with, and makes one request each |
| Routes.RouteManager.AddMissing | crates/core/src/route.rs:356-371 | the add loop stops at the first refused add; the ledger and the table have gained exactly the adds before it, EEXIST counting as an add |
| Routes.RouteManager.Clear | crates/core/src/route.rs:389-408 | evicts every ledger route and empties ledger and record; each request is a delete of a ledger network with the gateway and interface it was installed with |
| Routes.Kernel.Add | crates/core/src/route.rs:358-369 | the three answers of an add and what the table is after each |
| Routes.Kernel.Delete | crates/core/src/route.rs:336-352 | a delete takes everything in its slot and an absent route is no error |
| RouteLaws.DiffRefinesReinstall | crates/core/src/route.rs:177-192 | diff-and-patch ends at the same table and ledger as clear-and-add-all if and only if no deletion shares a slot with a kept network that is not also added back; both keyings |
| RouteLaws.CanonicalIsAliasSafe | crates/core/src/route.rs:434-435 | networks without host bits always meet that condition |
| RouteLaws.AliasLosesRoute | crates/core/src/route.rs:333-354 | for any two networks that differ only in host bits, dropping the second leaves the ledger with a route the kernel no longer has |
| RouteLaws.HostBitsAlias | crates/core/src/route.rs:53-58 | a concrete pair of pushed networks that are distinct in the ledger and equal in the kernel |
| RouteLaws.LastRequestDecides | crates/core/src/route.rs:310-384 | after any series of set-replaces and gateway flips the last request alone decides table and ledger |
| RouteLaws.ApplyTwoParts | crates/core/src/route.rs:332-373 | after an apply cut short anywhere, the table is the foreign routes, the kept ones on their old interface and the added ones on the new |
| RouteLaws.PartialApplyAgrees | crates/core/src/route.rs:356-371 | wherever an add fails, the ledger still lists exactly our routes in the table |
| RouteLaws.KeptIsNeverRequested | crates/core/src/route.rs:177-192 | no request is made for a destination whose gateway is unchanged |
| RouteLaws.RetryConverges | crates/core/src/route.rs:310-384 | repeating a failed apply deletes nothing, adds only what is missing, and ends where an apply without the failure would have |
| RouteLaws.ClearExact | crates/core/src/route.rs:389-408 | a clear leaves exactly the foreign routes if and only if every other route is in the slot of a ledger route |
| RouteLaws.ApplyThenClear | crates/core/src/route.rs:373-408 | after an apply, complete or cut short, on the same or another interface, a clear leaves exactly the foreign routes if and only if deletes go by destination or no surviving route is off the recorded interface |
| RouteLaws.FailedApplyLeaks | crates/core/src/route.rs:356-373 | with interface keying, a first apply that fails after one of two adds, then a clear, leaves exactly that added route |
| RouteLaws.MovedApplyLeaks | crates/core/src/route.rs:328-373 | with interface keying, a whole apply that keeps a route while the interface changes, then a clear, does not restore the table |
| RouteLaws.ClearThenApplyHeals | crates/core/src/commands/connect/mod.rs:604-629 | clear-then-apply reaches the reinstalled state from any table whose own routes the deletes still reach; both keyings |
| Forwarding.LongestIsLongest | crates/core/src/route.rs:60-67 | the forwarding function used below is longest-prefix match: no containing network of the table is longer than the one chosen |
| Forwarding.TwoHalves | crates/core/src/route.rs:62-67 | every address of a family is in one of its two split routes |
| Forwarding.Def1Redirects | crates/core/src/route.rs:76-99 | adding the split routes sends to the tunnel exactly the addresses of a covered family whose best match was the default route or nothing, and changes no other address |
| Forwarding.Def1Undone | crates/core/src/route.rs:60-67 | deleting the split routes restores the table if and only if none of them was in it before |
| Forwarding.FillAddsAbsent | crates/core/src/route.rs:356-371 | kernel adds, seen as a forwarding table, add exactly the absent networks with one next hop |
| Tunnel.AddedNetsDivert | crates/core/src/route.rs:60-67 | adding absent networks diverts exactly the addresses whose best match among them beats their best match in the table |
| Tunnel.ConnectedForwards | crates/core/src/commands/connect/mod.rs:604-629 | in the table as CONNECTED leaves it, an address goes to the tunnel if and only if its best match among pushed and redirect networks is longer than its best foreign match; all others go where they went without us |
| Tunnel.FullTunnel | crates/core/src/commands/connect/apply.rs:72-82 | with a redirect in force no covered address is left to the default route |
| Tunnel.NothingRedirected | crates/openvpn/src/management/push.rs:126-153 | a redirect adds no route if and only if it does not ask for IPv6 and either opts out of IPv4 or names no known flag; the bare directive is such a case |
| Recovery.DesiredMeaning | crates/core/src/commands/connect/apply.rs:59-138 | a network is applied if and only if some pushed route names it with a prefix that fits (IPv6 routes only with an IPv6 tunnel address), or a redirect covers its family and it is one of the two halves |
| Recovery.RecordManifest | crates/core/src/commands/connect/apply.rs:42-57 | the file then holds each ledger route once, and nothing else |
| Recovery.TunnelState | crates/core/src/commands/connect/apply.rs:23-37 | routes applied (untouched without a route-gateway) and the manifest equal to the ledger, even when an add failed |
| Recovery.RunAtStartup | crates/core/src/cleanup.rs:117-168 | every manifest entry is deleted by network and gateway, the file is removed; absent or unreadable means nothing to delete |
| RecoveryLaws.ConnectedHeals | crates/core/src/commands/connect/mod.rs:604-629 | on either system, from any state whose own routes the deletes reach, with some dropped or rebound by the kernel, CONNECTED ends with a table of every foreign route plus exactly the accepted desired ones via the pushed gateway; these are reached again if and only if that apply stays on record |
| RecoveryLaws.ConnectedRoutes | crates/core/src/route.rs:434-448 | after CONNECTED our routes are one for each network the kernel took, field by field: the network without host bits, the pushed gateway (left out on macOS exactly when the interface is known), and the interface if the push has a tunnel address |
| RecoveryLaws.StepKeepsAccount | crates/core/src/commands/connect/mod.rs:604-763 | on either system, a CONNECTED or re-push over any table takes no foreign route out of it and leaves the manifest equal to the ledger |
| RecoveryLaws.RunKeepsAccount | crates/core/src/commands/connect/apply.rs:23-57 | on either system, over any run of connects, re-pushes, kernel losses, rebinds and foreign changes, the manifest is the ledger and the foreign routes in the table are those the world alone left |
| RecoveryLaws.RunKeepsInv | crates/core/src/route.rs:310-408 | on either system, after any steady run a clear would leave exactly the foreign routes the world left; by destination every run is steady |
| RecoveryLaws.ClearedExactly | crates/core/src/route.rs:389-408 | on either system, in every state of a run a clear leaves exactly the foreign routes if and only if each own route is in the slot of a ledger route on the recorded interface |
| RecoveryLaws.WholeStaysOnRecord | crates/core/src/route.rs:328-373 | an apply no add of which is refused, on the one interface in use, keeps every own route on record |
| RecoveryLaws.MacIsSteady | crates/core/src/route.rs:389-408 | where deletes go by destination every run is steady |
| RecoveryLaws.StartupExact | crates/core/src/cleanup.rs:141-168 | start-up leaves exactly the foreign routes if and only if every leftover is in the slot of a manifest entry; both keyings |
| RecoveryLaws.ManifestReach | crates/core/src/cleanup.rs:150-152 | an entry reaches a route if and only if, by destination, the ledger names its network, or, with interface keying, the ledger has that network and gateway and the route has no interface |
| RecoveryLaws.CrashRecovers | crates/core/src/cleanup.rs:117-139 | for deletes by destination, die at any waiting point of any run and the next start leaves exactly the foreign routes the world put there |
| RecoveryLaws.CrashExactly | crates/core/src/cleanup.rs:117-139 | on either system, die at any waiting point of any run: the next start leaves exactly the foreign routes the world put there if and only if the manifest reaches every own route |
| RecoveryLaws.StartupMissesInterfaceRoutes | crates/core/src/cleanup.rs:150-152 | with interface keying start-up leaves a table of interface-bound routes unchanged |
| RecoveryLaws.WindowsCrashLeaks | crates/core/src/cleanup.rs:141-168 | with interface keying, a first CONNECTED with its manifest saved, then a crash: start-up leaves exactly the route that was added |
| RecoveryLaws.CrashBeforeSave | crates/core/src/commands/connect/apply.rs:32-36 | for deletes by destination, a crash between the adds and the save, of a CONNECTED or of a re-push, is recovered from if and only if the previous ledger named every destination added |
| RecoveryLaws.CrashBeforeSaveExactly | crates/core/src/commands/connect/apply.rs:32-36 | on either system, such a crash is recovered from if and only if the previous manifest reaches every own route |
| RecoveryLaws.FirstConnectLost | crates/core/src/commands/connect/apply.rs:32-36 | on either system, a first CONNECTED cut off before the save: start-up leaves exactly the route that was added |
| NetMon.Monitor.SetSelfIps | crates/core/src/netmon.rs:173-203 | arms once, forgetting earlier emissions; later calls only replace the addresses |
| NetMon.Monitor.Consider | crates/core/src/netmon.rs:209-279 | one wake-up: the next monitor state and whether it is emitted |
| NetMon.Monitor.NextChange | crates/core/src/netmon.rs:208-280 | consumes queued wake-ups up to and including the first that is emitted, and no further |
| NetMon.EmissionsApart | crates/core/src/netmon.rs:254-265 | in every timed trace two emissions are at least the cooldown apart |
| NetMon.WithheldIsCoalesced | crates/core/src/netmon.rs:254-265 | an eligible change is emitted if and only if no earlier emission lies within the cooldown |
| NetMon.EmissionsSettled | crates/core/src/netmon.rs:229-238 | every emission is at least the settle time after the first registration of tunnel addresses |
| NetMon.NeverOwnTunnel | crates/core/src/netmon.rs:240-252 | no emission is for a network that holds a currently registered tunnel address |
| NetMon.TriggerRate | crates/core/src/netmon.rs:51-55 | a window of length L holds at most L divided by the cooldown, plus one, emissions |
| NetMon.MonitorKnows | crates/core/src/netmon.rs:173-203 | before every event of any trace the monitor holds the addresses registered last, the wall-clock reading of the last tick or of the first registration, and is armed if and only if something was registered |
| NetMon.EmitsExactly | crates/core/src/netmon.rs:208-280 | from the trace alone: a wake-up is emitted if and only if it is an interface event off the tunnel, a wake from sleep or a clock that went back or jumped ten minutes, one second after the first registration and five after every earlier emission |
| Attempt.EventLoop.OnNetwork | crates/core/src/commands/connect/mod.rs:414-464 | a monitor signal before the first CONNECTED is not looked at; after it, the monitor object filters it and a restart is sent unless the link is healthy |
| Attempt.EventLoop.TunnelState | crates/core/src/commands/connect/apply.rs:23-37 | DNS, routes and manifest applied through their managers: adds only of missing routes the kernel took, and the manifest equal to the ledger |
| Attempt.EventLoop.OnConnected | crates/core/src/commands/connect/mod.rs:575-630 | the monitor registered, then the route manager cleared, then everything applied; the result is the CONNECTED step of the run model |
| Attempt.EventLoop.OnState | crates/core/src/commands/connect/mod.rs:495-639 | status, reconnect counter and, on CONNECTED, clear-then-apply on the real managers; EXITING ends the loop and keeps an earlier outcome |
| Attempt.EventLoop.OnPush | crates/core/src/commands/connect/mod.rs:701-764 | a refused push ends the attempt for good and touches neither routes nor DNS; an accepted one is remembered, and applied only on an already connected tunnel |
| Attempt.EventLoop.OnBytes | crates/core/src/commands/connect/mod.rs:776-799 | only a received total above the previous one moves the proof-of-life time |
| Attempt.EventLoop.Handle | crates/core/src/commands/connect/mod.rs:398-817 | one turn of the select loop |
| Attempt.EventLoop.Pump | crates/core/src/commands/connect/mod.rs:398-817 | the loop over any inputs is the fold of its turns up to the one that ends it |
| Attempt.EventLoop.TearDown | crates/core/src/commands/connect/mod.rs:819-857 | route manager cleared, DNS manager cleared, manifest file removed, then the outcome: a failed wait wins, then the loop's outcome, then the exit code |
| Attempt.EventLoop.Live | crates/core/src/commands/connect/mod.rs:398-857 | the loop followed by the teardown, with the kernel table, the ledger and DNS as the ending says |
| Attempt.RunAttempt | crates/core/src/commands/connect/mod.rs:398-857 | with new managers over a kernel, a manifest file and a DNS backend, the attempt leaves all three as the fold of the inputs followed by the teardown says |
| TeardownLaws.LoopKeepsAccount | crates/core/src/commands/connect/mod.rs:604-763 | on either system, before every turn of every run the manifest is the ledger, and foreign routes are as the world alone left them |
| TeardownLaws.LoopKeepsInv | crates/core/src/commands/connect/mod.rs:604-629 | before every turn of a steady run (on macOS, of any run) a clear would reach every own route |
| TeardownLaws.WholeIsSteady | crates/core/src/route.rs:328-373 | a run whose applies are whole and on one interface, in a kernel that moves no route to another, is steady on either system |
| TeardownLaws.TurnKeepsDns | crates/core/src/commands/connect/apply.rs:143-188 | a turn keeps every file or rule of ours on record and changes none of others |
| TeardownLaws.LoopKeepsDns | crates/core/src/commands/connect/apply.rs:143-188 | before every turn of every run everything of ours in DNS is on record, on either system |
| TeardownLaws.LastPush | crates/core/src/commands/connect/mod.rs:718-723 | before every input of any run the push in force is the one accepted last |
| TeardownLaws.ConnectedFollowsPush | crates/core/src/commands/connect/mod.rs:604-639 | after a CONNECTED our routes are one for each network the kernel took through the gateway of the push accepted last, and DNS provides what that push and the profile ask for; either system, any steady run |
| TeardownLaws.AttemptLeavesExactly | crates/core/src/commands/connect/mod.rs:819-836 | on either system, however the loop ends, the attempt leaves exactly the foreign routes the world alone left, an empty ledger and no manifest if and only if each own route is in the slot of a ledger route on the recorded interface when the loop ends |
| TeardownLaws.AttemptLeavesNothing | crates/core/src/commands/connect/mod.rs:819-836 | however the loop ends, after any run on macOS and any steady run on Windows: no own route, an empty ledger, no manifest, and in the table exactly the foreign routes the world alone left |
| TeardownLaws.WindowsAttemptLeaks | crates/core/src/route.rs:356-408 | with interface keying, a push of two networks, a CONNECTED whose second add is refused and a cancellation: the attempt leaves exactly the first route |
| TeardownLaws.AttemptClearsDns | crates/core/src/commands/connect/mod.rs:822-823 | however the loop ends, no marked resolver file and no rule of ours in either table, and what others have there unchanged by the teardown |
| TeardownLaws.CrashExactly | crates/core/src/cleanup.rs:117-139 | on either system, after a crash between any two turns the next start leaves exactly the foreign routes the world alone left if and only if the manifest reaches every own route, and always nothing of ours in DNS |
| TeardownLaws.CrashAnywhere | crates/core/src/cleanup.rs:117-139 | for deletes by destination, after a crash between any two turns the next start leaves exactly the foreign routes the world alone left |
| TeardownLaws.LifeLeavesNothing | crates/core/src/commands/connect/mod.rs:121-203 | after any number of attempts, on macOS or with steady runs on Windows, the host holds the foreign routes the world alone left and nothing of ours, in routing or DNS |
| OutcomeLaws.RunsUntil | crates/core/src/commands/connect/mod.rs:398-817 | the loop runs as long as no input ends it (a cancel, a stuck verdict, a read error, EXITING, a failed hold release, rejected credentials, a fatal event, a refused push), and until then has no outcome and has not told openvpn to go |
| OutcomeLaws.OutcomeExactly | crates/core/src/commands/connect/mod.rs:838-857 | outcome, final status and whether SIGTERM was sent follow from the first input to end the loop and from the wait: a failed wait is transient, a cancel completes, rejected credentials and a refused push are final, an exit goes by its code, the rest is transient |
| OutcomeLaws.TurnSends | crates/core/src/commands/connect/mod.rs:402-480 | a turn sends a restart where one is due, a SIGTERM for a cancel, a stuck verdict, rejected credentials or a refused push, and otherwise nothing |
| OutcomeLaws.OkExactly | crates/core/src/commands/connect/mod.rs:121-203 | connecting returns Ok if and only if its last attempt was ended by the user or openvpn exited cleanly in it, and no attempt before was |
| OutcomeLaws.ConnectLeavesNothing | crates/core/src/commands/connect/mod.rs:121-203 | after all the attempts the retry loop makes, at most nine, nothing of ours is left on the host, whatever it returned; macOS, or Windows with steady runs |
| OutcomeLaws.CancelIsHeard | crates/core/src/commands/connect/mod.rs:398-407 | an attempt that starts cancelled and gets to its loop is the last, and Ok unless the wait fails |
| AttemptLaws.ConnectedBefore | crates/core/src/commands/connect/mod.rs:575-580 | the gate of the monitor arm is open if and only if a CONNECTED was handled earlier in this attempt |
| AttemptLaws.RestartExactly | crates/core/src/commands/connect/mod.rs:414-464 | a turn sends SIGUSR1 if and only if the loop is running, a CONNECTED came before, the monitor emits this trigger and the link does not look healthy |
| AttemptLaws.RestartRate | crates/core/src/commands/connect/mod.rs:414-464 | restarts of any run are at least the cooldown apart, which bounds their number in any window |
| RestartLaws.ArmedExactly | crates/core/src/commands/connect/mod.rs:581-594 | with a monitor, before every input of any run it is armed if and only if a handled CONNECTED had an address or an accepted push an ifconfig |
| RestartLaws.LastAddress | crates/core/src/commands/connect/mod.rs:724-732 | the address the monitor filters by is the one the last such input brought |
| RestartLaws.RestartFromInputs | crates/core/src/commands/connect/mod.rs:407-464 | from the inputs alone: a network change is answered with SIGUSR1 if and only if the loop runs, a CONNECTED came before, the change tells of something new, a second has passed since the first tunnel address and five since every earlier trigger, and the link does not look healthy |
| RestartLaws.NoRestartForOwnTunnel | crates/core/src/commands/connect/mod.rs:581-588 | no restart answers an event on a network that holds the address brought last |
| RestartLaws.NoMonitorNoRestart | crates/core/src/commands/connect/mod.rs:414-421 | without a monitor there is no restart in any run |
| AttemptLaws.RemembersRise | crates/core/src/commands/connect/mod.rs:784-793 | the proof-of-life time is that of the last byte count that rose above its predecessor, and there is none exactly when none did |
| AttemptLaws.HealthyOnEvidence | crates/core/src/commands/connect/mod.rs:965-982 | the link counts as healthy if and only if the status is Connected, the last byte count is under ten seconds old and the last rise under a minute old |
| AttemptLaws.ReconnectsAreOutages | crates/core/src/commands/connect/mod.rs:562-569 | over all attempts the counter is the number of adjacent Connected, Reconnecting states, saturating, and at most the number of CONNECTED events |
| AttemptLaws.OutagesAreTransitions | crates/ipc/src/lib.rs:182-186 | within an attempt the counter rises by the documented number of changes into Reconnecting if and only if each comes straight from Connected, and by less otherwise |
| AttemptLaws.ChurnNotCounted | crates/core/src/commands/connect/mod.rs:548-569 | a stream with one outage and two changes into Reconnecting |
| Retry.Run | crates/core/src/commands/connect/mod.rs:121-203 | the attempts made, the pauses between them, and Ok exactly when the last attempt completed |
| Retry.Schedule | crates/core/src/commands/connect/retry.rs:55-62 | the eight delays, and their sum of 183 seconds |
| Retry.RetryBound | crates/core/src/commands/connect/mod.rs:121-203 | at most nine attempts and 183 seconds of pauses, each at most 60 and rising, stopping at the first final outcome, with at most one attempt started after a cancellation |
| Retry.BoundReached | crates/core/src/commands/connect/retry.rs:55-62 | the bounds are tight: failing every time uses all of them |
| Retry.ContinuesExactly | crates/core/src/commands/connect/mod.rs:144-187 | another attempt follows if and only if this one failed for now, the user had cancelled neither before nor by its end, a delay is left, and no cancellation came during the pause; then the pause is the scheduled one |
| Retry.LastPause | crates/core/src/commands/connect/mod.rs:175-181 | the last attempt is followed by a pause only if one was due, as long as until the cancellation |
| Slot.SingleConnection | crates/daemon/src/server.rs:105-222 | in every interleaving at most one connection has a task not yet gone, and the slot is occupied exactly by it |
| Slot.ClearsOwnEntry | crates/daemon/src/server.rs:192-214 | the unconditional take at the end of a task always finds the task's own entry |
| Slot.OkMeansConnected | crates/daemon/src/server.rs:352-382 | Ok is returned only about a connection whose status was Connected at some moment |
| Slot.ShutdownWaits | crates/daemon/src/server.rs:245-263 | a shutdown poll returns if and only if every connect task is gone |
| Slot.SlotDrains | crates/daemon/src/server.rs:105-222 | from every reachable state at most three steps empty the slot |
| Slot.UpExactly | crates/daemon/src/server.rs:105-190 | in every reachable state `up` joins the connection of the same profile, is refused beside another, is refused without a server, and otherwise starts a connection, changing nothing else |
| Slot.ToldExactly | crates/daemon/src/server.rs:352-382 | a waiting caller is told Up if and only if the status is Connected, an openvpn error if and only if it is Exited or Failed, a closed channel if and only if neither and the task has returned, and nothing otherwise |
| Slot.DownCancels | crates/daemon/src/server.rs:298-320 | in every reachable state `down` or a shutdown cancels the connection in the slot, and changes no other connection, no caller and not the slot |
| Slot.CancelledEnds | crates/core/src/commands/connect/mod.rs:153-187 | over every run a cancelled connection stays cancelled and begins at most one more attempt, none out of an attempt that was running |
| Slot.DownStops | crates/daemon/src/server.rs:310-318 | after a `down`, whatever follows, the connection begins at most one more attempt, and none if it was in the middle of one |
| Slot.AttemptEndsExactly | crates/core/src/commands/connect/mod.rs:142-187 | after an attempt the task pauses if and only if it failed for now, nobody cancelled and a delay is left; otherwise it returns and counts as cancelled |
| Slot.AttemptsCounted | crates/core/src/commands/connect/mod.rs:117-187 | in every interleaving a connection begins at most nine attempts, and its task carries the count of those begun |
| Slot.EarlyErrorExactly | crates/daemon/src/server.rs:216-222 | in every reachable state a waiting caller is told of an error while its connection holds the slot if and only if the task has not cleared it and either Exited or Failed is published or the task returned without a final status |
| Slot.EarlyErrorCause | crates/core/src/commands/connect/mod.rs:153-187 | at the end of an attempt the caller is told of an error and the task lives on if and only if the retry loop pauses (transient outcome, no cancellation, a delay left) and Exited or Failed is published |
| Slot.RunScheduled | crates/core/src/commands/connect/mod.rs:117-187 | in every interleaving no task is in an attempt beyond those the delay schedule allows |
| Slot.ErrorMayComeEarly | crates/daemon/src/server.rs:216-222 | a run in which `up` has returned an error while the task is in the pause before its second attempt |
| Nrpt.BuildRules | crates/tunnel-windows/src/dns/nrpt.rs:249-293 | the rules and the surplus ids for any suffixes, servers and previous ids |
| Nrpt.PackingExact | crates/tunnel-windows/src/dns/nrpt.rs:249-293 | the rules' domains end to end are the suffixes in order, each with a leading dot and otherwise as given, 1 to 50 to a rule, in as few rules as possible, every rule with all the servers |
| Nrpt.SuffixAt | crates/tunnel-windows/src/dns/nrpt.rs:260-275 | suffix i stands with its dot at position i mod 50 of rule i div 50 |
| Nrpt.IdsExact | crates/tunnel-windows/src/dns/nrpt.rs:277-291 | reused ids followed by surplus ids are the previous list, the rest are fresh in order, and ids stay distinct |
| Nrpt.DnsManager.Install | crates/tunnel-windows/src/dns/mod.rs:56-91 | the mirror flag is set if and only if the Group Policy key holds a rule that is not on the owner list; the exact write sequence: surplus deletes, puts, owner list last |
| Nrpt.DnsManager.Revert | crates/tunnel-windows/src/dns/nrpt.rs:377-423 | deletes what the registry's owner list names, whatever this process remembers |
| NrptLaws.WritesAddUp | crates/tunnel-windows/src/dns/nrpt.rs:302-365 | the write sequences of install and revert amount to one closed-form change of the registry |
| NrptLaws.RunKeepsInv | crates/tunnel-windows/src/dns/mod.rs:56-101 | over any history of installs, reverts, restarts and others' writes, our local rules are exactly those on the owner list and our Group Policy rules are among them |
| NrptLaws.RevertRemovesAll | crates/tunnel-windows/src/dns/nrpt.rs:368-423 | at the end of any history a fresh process removes every rule of ours from both tables and no other |
| NrptLaws.RevertFreesKey | crates/tunnel-windows/src/dns/nrpt.rs:400-414 | a revert removes the Group Policy key if and only if it held no value and no rule but ours |
| NrptLaws.InstallSparesForeign | crates/tunnel-windows/src/dns/nrpt.rs:302-365 | an install changes no rule of others in either table |
| NrptLaws.InstallWritesLocal | crates/tunnel-windows/src/dns/nrpt.rs:339-349 | afterwards our local rules are exactly the new ones, and with a foreign rule in the Group Policy table so are ours there; each suffix is served with its dot and the servers asked for |
| NrptLaws.MirrorsForeignPolicy | crates/tunnel-windows/src/dns/nrpt.rs:209-236 | in every reachable state an install mirrors if and only if someone else has a rule in the Group Policy table |
| NrptLaws.InstallTakesEffect | crates/tunnel-windows/src/dns/nrpt.rs:209-236 | the new rules are in force if and only if the Group Policy key is absent, or holds a foreign rule, or already holds these very rules |
| NrptLaws.StaleIsReachable | crates/tunnel-windows/src/dns/nrpt.rs:209-236 | a reachable history after which an install leaves the old servers in force |
| NrptLaws.CrashLeaksFreshIds | crates/tunnel-windows/src/dns/nrpt.rs:339-349 | after a death at any write before the owner list, a fresh revert leaves a rule of ours, in the local or the Group Policy table, if and only if it was a fresh one already put into that table |
| NrptLaws.FirstInstallLeaks | crates/tunnel-windows/src/dns/nrpt.rs:339-349 | from an empty registry, a first install that dies after its first write leaves that rule after a fresh revert |
| NrptLaws.RevertSurvivesCrash | crates/tunnel-windows/src/dns/nrpt.rs:377-423 | a revert cut short at any write, then a fresh revert, ends exactly where the first would have |
| SplitDns.Manager.Apply | crates/core/src/commands/connect/apply.rs:143-217 | the guard or the rules get the merged suffixes and servers; without either nothing is touched |
| SplitDns.Manager.Clear | crates/core/src/dns.rs:106-108 | the guard removes its files, or the rules on the owner list are deleted |
| SplitDns.Manager.ClearOrphans | crates/core/src/cleanup.rs:170-187 | a new process sweeps marked files, or reverts from the owner list |
| SplitDns.ApplyKeepsInv | crates/core/src/commands/connect/apply.rs:143-188 | an apply keeps everything of ours on record, on either system, and changes nothing of others |
| SplitDns.RequestIs | crates/core/src/commands/connect/apply.rs:195-217 | the request is the suffixes of the profile, then the pushed domain unless one of them is it with dots in front; and the pushed servers, or where none are pushed those of the profile that can be read, in order |
| SplitDns.ApplyFollowsPush | crates/core/src/commands/connect/apply.rs:143-188 | without a suffix or server nothing is done; on macOS, if the batch goes through, the marked files are those of its names, each listing the servers in order, and if not nothing changes; on Windows each suffix stands with its dot and the servers in its rule |
| SplitDns.ClearLeavesNone | crates/core/src/dns.rs:64-65 | a clear leaves nothing of ours and everything of others, on either system |
| SplitDns.StartupLeavesNone | crates/core/src/cleanup.rs:170-187 | so does start-up cleanup after a crash |
| SplitDns.FilesFollowPush | crates/core/src/commands/connect/apply.rs:150-158 | after an apply the marked files match what the push and profile ask for if and only if they ask for something the guard accepts, or matched before |
| SplitDns.WithdrawnDnsStays | crates/core/src/commands/connect/apply.rs:150-158 | a file written earlier stays when a push and profile ask for nothing |
| Resolver.Normalize | crates/tunnel-darwin/src/dns.rs:239-248 | succeeds if and only if every non-empty suffix is valid, with exactly their canonical names; otherwise names an invalid input and its reason |
| Resolver.AcceptedExactly | crates/tunnel-darwin/src/dns.rs:270-311 | a suffix is accepted under a name if and only if, without leading dots, it is not empty, at most 253 long, free of path characters and ends in neither dot nor hyphen, and the DNS library answers with that name, which is not empty and free of path characters |
| Resolver.NamesStayInside | crates/tunnel-darwin/src/dns.rs:270-311 | an accepted name is not empty and has no path character; joined to any directory it is an entry of that directory if and only if the DNS library did not answer with two or three dots |
| Resolver.NoLeadingDotInside | crates/tunnel-darwin/src/dns.rs:239-248 | with a library that never answers with a leading dot, every name of a batch is an entry of the directory |
| Resolver.DotsEscape | crates/tunnel-darwin/src/dns.rs:298-310 | with a library that is not held to that, the name `..` is accepted |
| Resolver.Folder.CheckWritable | crates/tunnel-darwin/src/dns.rs:317-339 | passes if and only if the target is absent or ours; a conflict carries the first line found |
| Resolver.Folder.RemoveIfOurs | crates/tunnel-darwin/src/dns.rs:405-427 | removes the file only while its first line carries our marker |
| Resolver.Folder.Sweep | crates/tunnel-darwin/src/dns.rs:210-232 | removes every marked file, no other, and reports whether there was one |
| Resolver.DnsGuard.Update | crates/tunnel-darwin/src/dns.rs:148-182 | succeeds if and only if all suffixes are valid and all targets writable (or there is nothing to write); on an error neither the directory nor the record changes |
| Resolver.DnsGuard.Remove | crates/tunnel-darwin/src/dns.rs:187-192 | removes those recorded files that are still ours and empties the record |
| Resolver.OursByPrefix | crates/tunnel-darwin/src/dns.rs:345-359 | reading the first line and testing it is testing the whole content for the marker |
| Resolver.WrittenIsOurs | crates/tunnel-darwin/src/dns.rs:371-380 | whatever the suffix and servers, a file we write is recognised as ours later |
| Resolver.ForeignFilesUntouched | crates/tunnel-darwin/src/dns.rs:187-232 | over any run interleaved with other tools, the files that are not ours are what the others alone made of them |
| Resolver.UpdateExact | crates/tunnel-darwin/src/dns.rs:148-182 | if and only if every suffix is valid and every target absent or marked (or no server is given), record and marked files become the desired set, each file reading back line by line as the marker with its name and the servers in order; otherwise nothing changes |
| Resolver.WrittenLists | crates/tunnel-darwin/src/dns.rs:371-380 | split at newlines, a written file is the marker line naming the suffix, one `nameserver` line for each server in order, and an empty end |
| Resolver.SucceedsMeaning | crates/tunnel-darwin/src/dns.rs:148-182 | an update goes through if and only if each non-empty suffix is accepted and each of their files that exists starts with the marker, unless no server is given |
| Resolver.NothingLeaks | crates/tunnel-darwin/src/dns.rs:148-192 | over any run every marked file is on record, so a removal leaves none |
| Resolver.SweepCatchesAll | crates/tunnel-darwin/src/dns.rs:200-232 | a start-up sweep of any directory leaves no marked file and every other file |
| Push.ParseFlags | crates/openvpn/src/management/push.rs:103-119 | the record has exactly the flags named among the words |
| Push.ParseToken | crates/openvpn/src/management/push.rs:303-307 | one token does what its directive says, through the flag reader for a redirect, or is kept as an extra |
| Push.Parse | crates/openvpn/src/management/push.rs:295-315 | the record is the fold of the trimmed, non-blank pieces of the list |
| PushLaws.TokensRead | crates/openvpn/src/management/push.rs:295-302 | a comma list is read as the tokens it was written from, white space around them and blank pieces left out |
| PushLaws.TokensAccountedFor | crates/openvpn/src/management/push.rs:299-308 | each token is dispatched or kept in `extras`, in order; routes come out in push order |
| PushLaws.ExtrasExactly | crates/openvpn/src/management/push.rs:321-511 | a token is kept as an extra if and only if it starts with no known keyword and is none of those without an argument |
| PushLaws.ListsGathered | crates/openvpn/src/management/push.rs:322-347 | the DNS, NTP and WINS servers are the readable ones pushed, in order, and the search domains all those pushed |
| PushLaws.LastWins | crates/openvpn/src/management/push.rs:321-503 | of domain, ifconfig, numbers, cipher, compression and tokens the last readable directive of each kind decides |
| PushLaws.OnlyAsGiven | crates/openvpn/src/management/push.rs:321-503 | and without one there is no value |
| PushLaws.FirstGatewayWins | crates/openvpn/src/management/push.rs:396-413 | the gateway is that of the first token with a parseable one |
| PushLaws.RedirectIsUnion | crates/openvpn/src/management/push.rs:214-226 | the merged flags are those of all flag lists read as one |
| PushLaws.RedirectIgnoresOrder | crates/openvpn/src/management/push.rs:209-226 | neither order nor repetition of directives changes the flags |
| PushLaws.RedirectReached | crates/openvpn/src/management/push.rs:484-489 | a redirect directive is not shadowed by a shorter or longer keyword |
| PushLaws.LegacyRedirectReached | crates/openvpn/src/management/push.rs:472-483 | the older spelling is the same directive with the ipv6 flag added |
| PushLaws.DhcpKeywords | crates/openvpn/src/management/push.rs:322-347 | each DHCP option is read as what it says, DOMAIN-SEARCH not as DOMAIN |
| PushLaws.AddressKeywords | crates/openvpn/src/management/push.rs:397-440 | so are route-gateway and the two ifconfig directives |
| PushLaws.NumberKeywords | crates/openvpn/src/management/push.rs:443-450 | so are the directives with a number, ping-restart and ping-exit not as ping |
| PushLaws.SessionKeywords | crates/openvpn/src/management/push.rs:451-509 | so are cipher, compression, tokens and topology, auth-token-user not as auth-token |
| PushLaws.IfconfigIs | crates/openvpn/src/management/push.rs:414-440 | an ifconfig is the address before the first space and the rest, if the address can be read; the IPv6 form drops a prefix length |
| PushLaws.RouteGatewayRead | crates/openvpn/src/management/push.rs:367-395 | a third word of a route is its gateway, if it can be read |
| PushLaws.RouteRefused | crates/openvpn/src/management/push.rs:367-395 | a route is dropped if and only if its destination or mask cannot be read or the mask is not contiguous |
| PushLaws.RouteIpv6Read | crates/openvpn/src/management/push.rs:348-366 | an IPv6 route without a prefix has 128, and a second word is its gateway |
| PushLaws.CompressionIs | crates/openvpn/src/management/push.rs:175-187 | the three safe modes are recognised by name in any case and with white space around; anything else is an active algorithm, kept as written |
| Numbers.MaskPrefixInverse | crates/openvpn/src/management/push.rs:517-540 | for every 32-bit mask, it has prefix length p if and only if p is at most 32 and it is the mask of p |
| Numbers.ShowIpv4Reads | crates/openvpn/src/config.rs:243-252 | every IPv4 address, printed, reads back as itself |
| Numbers.Ipv4OnlyShown | crates/openvpn/src/management/push.rs:370-373 | an IPv4 address is read from its own notation and from no other text |
| Numbers.UnsignedExactly | crates/openvpn/src/management/push.rs:199-207 | a number is read if and only if it is digits, with or without a plus sign, and not over the limit |
| Config.Ipv4RouteReadsBack | crates/openvpn/src/config.rs:241-252 | an IPv4 include route, printed, is read by the push reader with the same destination and the same prefix, clamped at 32 |
| Config.Ipv6RouteReadsBack | crates/openvpn/src/config.rs:253-255 | an IPv6 include route reads back unchanged for any prefix byte |
| Config.ExcludeReadsBack | crates/openvpn/src/config.rs:241-261 | an exclude line is the include line with the one word `net_gateway` more, and the push reader takes both for the same route, without a gateway |
| NilStrip.StripNilElements | crates/profile/src/lib.rs:303-323 | the scanning loop computes the document with the nil placeholders dropped from its pieces |
| NilStrip.CutUnique | crates/profile/src/lib.rs:305-319 | a document splits into data, tag and rest in only one way |
| NilStrip.PlaceholderExactly | crates/profile/src/lib.rs:313-315 | a tag is dropped if and only if it ends in `/>` and holds the nil attribute, in either quotes, anywhere |
| NilStrip.PiecesCover | crates/profile/src/lib.rs:303-323 | the pieces put together are the document |
| NilStrip.StripIdempotent | crates/profile/src/lib.rs:289-298 | the result has no placeholder left, stripping again changes nothing, and the document is unchanged if and only if it had none |
| NilStrip.CdataUntouched | crates/profile/src/lib.rs:300-323 | a CDATA block passes untouched if and only if its text has no closing bracket, or the text up to the first one is no placeholder and nothing after it holds one |
| NilStrip.CdataLoses | crates/profile/src/lib.rs:307-318 | a CDATA block that quotes any placeholder is reduced to its end mark |

## Left out

- Route deletes that fail for a reason other than not-found: the code logs and drops the ledger entry.
- Linux routing and Linux DNS; overlap warnings and interface-index polling, which change no state.
- Iteration order of hash maps and sorted sets: loops take entries in any order, so which of several conflicts or failures is reported first is not fixed.
- Setup of an attempt before the loop (profile, config file, process start), which installs nothing: `OutcomeLaws` takes its failures as given.
- Watchdog phases and the crypto policy check: arbitrary verdicts.
- Bearer refresh, authentication prompts, throughput, last_error and log messages.
- The end of the interface event stream, after which the monitor waits forever; the deadline of the wall-clock poll.
- The Drop of the managers at the end of an attempt, which repeats a clear already done.
- Failures to write or remove the manifest, and its JSON encoding.
- Registry and resolver file I/O faults; one rule's four registry values are one write; Group Policy refresh and the Dnscache probe.
- The installed Group Policy client is not modelled beyond which table it reads.
- IPv6 text, the DNS name library and Unicode beyond white space: parameters, or characters instead of bytes (the 253 limit counts characters).
- Symbolic links and case-insensitive file names in the resolver directory.
- Config.Ipv6RouteReadsBack: assumes a printer of IPv6 literals that the reader undoes, because the standard library's is not part of this model.
- Config.ExcludeReadsBack: what openvpn itself makes of `net_gateway` is not modelled.
- Slot.OkMeansConnected: says nothing of panics in the connect task; identity checks, `target.json`, status and info requests are not modelled.
- Retry.Run: a cancellation at the very instant the pause ends is taken as an interruption; the code's select may take either branch.
