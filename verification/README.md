# A verified model of the htn-tunnel relay

htn-tunnel lets a client publish a local port through a relay server: an HTTP tunnel under
`https://<name>.<domain>`, or a TCP tunnel on a port of the server. This project models the
parts of it where state is shared, time passes or bytes are handed over, and proves what
they keep.

| file | what it models |
|---|---|
| `Names.dfy` | subdomain rules, the public URL, the name the client remembers, the name a Host stands for |
| `Tunnels.dfy`, `Manager.dfy` | the registry: its operations as functions, and the class with its two maps of shared records |
| `Quotas.dfy` | tunnel counters of tokens and API keys |
| `ControlPlane.dfy` | the server at the grain of its locks: requests, teardowns, kills, reaper, expiry, listeners, counters, interleaved at will |
| `QuotaSafety.dfy`, `PortSafety.dfy`, `RegistrySafety.dfy`, `TeardownSafety.dfy`, `LedgerSafety.dfy` | what holds in every run of that machine |
| `Lifecycle.dfy` | what every run of it can still do: whole lives of tunnels, and that nothing is ever stuck |
| `AnonSafety.dfy` | the same machine inside the request loops of the sessions, and the limit for anonymous clients |
| `Handlers.dfy`, `Server.dfy` | the same handlers taken whole: functions with their laws, and the class that performs them |
| `KeyStore.dfy` | API keys and the subdomains they own |
| `Codec.dfy`, `SharedEncoder.dfy` | the wire format, and many goroutines sharing one encoder |
| `RateLimit.dfy` | token buckets, the per-IP limiter with eviction, the per-token limiter |
| `RequestLog.dfy`, `Analytics.dfy`, `PubSub.dfy` | the request ring, its statistics, and the live subscriptions |
| `Heartbeat.dfy`, `Reconnect.dfy` | heartbeat against idle timer in real time; the client's loops |
| `WebSocket.dfy` | handing an upgraded connection over to raw copying |

Objects whose methods change fields in place are classes; each method's contract gives the
new state as a function of the old, and the laws are proved about those functions. Where
goroutines interleave, a component is a step machine whose steps are critical sections,
channel operations or system calls, and a result about it holds for every run.

## Assumptions

- Tunnel ids and API keys that are drawn are new.
- The operating system gives a port to at most one listener. The TCP port range is not empty.
- The configured domain contains no colon. Nothing else is needed of it: the naming results
  hold for any letter case. Names are ASCII, and so is lower-casing.
- `int` is 64 bits wide; only the 32-bit length field of the codec wraps.
- Arithmetic is exact: tokens and seconds of the rate limiters are real numbers, and minute
  indices of the traffic statistics are whole nanoseconds divided by a minute.
- `golang.org/x/time/rate` is a token bucket that starts full and refills steadily, and each
  bucket sees its clock reads in order. The two clock reads of one per-IP check are at most
  nine minutes apart.
- Writes succeed in `SharedEncoder`, `Heartbeat` and `WebSocket`. In `Heartbeat` a tick and
  the idle timer are acted on within a lag of less than 30 seconds. Closing one side of a
  yamux stream leaves the other side readable.
- In `ControlPlane`, checks that only turn a request away before it is charged are not
  steps; without them there are only more runs.

## Where code and comments differ

- `internal/server/server.go` says that after an idle timeout names are held for a
  reconnect. The deferred cleanup of the same connection unregisters them at once; in
  `Handlers.IdleTimeoutIsTeardown` the whole branch is a plain teardown, and by
  `Handlers.NothingReservedBetweenHandlers` no reservation outlives the handler that makes
  it. Reservations are therefore treated at the level of the registry's own operations.
- A teardown deletes by name or port, not by identity. If the tunnel its snapshot found was
  removed meanwhile and another one stands in its place, it is that one which vanishes, though
  its client was told that it is up: `TeardownSafety.TeardownMayDeleteOther` is a run in which
  this happens, `TeardownSafety.TeardownDeletesOtherIff` says exactly when.
- A kill, the reaper, a reclaim and such a teardown remove tunnels without a refund, so a
  counter can stay above the number of tunnels. `LedgerSafety.CounterExact` and
  `LedgerSafety.OrphansAre` say by exactly how much at every moment,
  `Handlers.CounterIsLivePlusForgotten` between handlers.
- The anonymous limit of one tunnel is checked before and apart from the registration. Two
  sessions of one address can both pass the check: `AnonSafety.TwoSessionsTwoTunnels` is such
  a run, `AnonSafety.SecondTunnelIff` says exactly when a second tunnel appears. What does
  hold in every interleaving is one tunnel per session.
- When the tunnel side of an upgraded connection ends first, the public side is closed in
  both directions and bytes on their way to the backend are lost:
  `WebSocket.IncompleteIffCutOff` says exactly when, `WebSocket.UpMayBeCut` that it happens.
- The key store takes the empty string for "nobody". A key file that lists it as an active
  key makes names claimable twice; `KeyStores.KeepsPartitionIff` says that nothing else does.

## Model

| member | source | states |
|---|---|---|
| QuotaSafety.QuotaHolds | internal/server/server.go:409-551 | in every interleaving of lock-sized steps, a token's registered tunnels are at most its counter, and that at most its limit |
| QuotaSafety.RefundsAreDue | internal/server/server.go:397-406 | every refund of every run lowers a counter that is above zero by one (the floor is never hit), for a tunnel that is not registered then or later |
| QuotaSafety.RefundedOnce | internal/server/server.go:536-551 | no tunnel is refunded twice in a run, by whatever teardown or failed request |
| QuotaSafety.BooksAlways | internal/server/server.go:409-551 | in every state of every run the counter of a token is the number of its charges not yet refunded, and whoever still holds a charged tunnel finds it among them |
| QuotaSafety.LiveIsOwed | internal/server/server.go:441-454 | registered tunnels, HTTP and TCP, are distinct charges still on the books |
| ControlPlane.IdentityAlways | internal/server/tunnel_manager.go:97-156 | in every run an id names one tunnel: in flight, or registered once, under its own name or port, for the session and token it was drawn for |
| ControlPlane.UnregisterRemoves | internal/server/server.go:536-551 | deleting by name or port removes the very tunnel the snapshot held, if it is still registered |
| ControlPlane.DepartedStep | internal/server/tunnel_manager.go:159-184 | a tunnel that has left the registry and is not on its way in never comes back |
| ControlPlane.KillExcludesOthers | internal/server/tunnel_manager.go:391-416 | between the two steps of a kill nobody else reads or writes the registry; clocks, charges, refunds and listeners go on |
| PortSafety.ListenersConserved | internal/server/tunnel_manager.go:123-184 | at every moment the server listens on exactly the registered ports (less one being killed) and those held by an allocation or a teardown under way; each listener is that of its tunnel; registered ports are in range and in their own record |
| PortSafety.RecheckAlwaysRegisters | internal/server/tunnel_manager.go:144-153 | with exclusive binding the second look of RegisterTCP never finds the port taken, so the spare-listener branch is dead and the request registers on its bound port |
| PortSafety.FailedAllocationLeaksNothing | internal/server/tunnel_manager.go:123-156 | a request that is refused leaves no listener of its own, then or at any later moment |
| PortSafety.PortsAlways | internal/server/tunnel_manager.go:391-416 | the invariant behind these, also across the window in which a kill has closed a listener and not yet deleted its entry |
| PortSafety.ClosedByItsOwn | internal/server/tunnel_manager.go:144-184 | a listener is closed only for the tunnel it was opened for: given up by its request, killed with it, or found by the teardown that closes it |
| PortSafety.PortAttempts | internal/server/tunnel_manager.go:128-153 | a port that the first look finds registered is passed over, and a spare listener is closed |
| RegistrySafety.OwnerNeverChanges | internal/server/tunnel_manager.go:97-119 | as long as a name stays registered, its owning token is the same, whatever happens in between |
| RegistrySafety.EntryPersists | internal/server/tunnel_manager.go:97-173 | the same tunnel found twice under a name was there all the time in between, with the same session |
| RegistrySafety.AdmittedTunnelIsRouted | internal/server/http_proxy.go:103-163 | in every run, a request whose TLS server name spells a registered name's URL host in any letter case is routed to that session for as long as its entry is active, whatever its Host header; so is one whose Host header does, with or without port, if the server name says nothing; and the client reads that name from the URL |
| RegistrySafety.AdmittedIff | internal/server/tunnel_manager.go:97-119 | a request is registered if and only if its name is valid and is free or reserved for its own token until later; then with the present time, else nothing changes |
| RegistrySafety.ReservedForOwner | internal/server/tunnel_manager.go:97-173 | while a reservation stands, over whole runs, nobody is served under the name, and a request for it is registered if and only if it is of the same token and the time for which it was reserved has not passed |
| RegistrySafety.ReaperIsExact | internal/server/tunnel_manager.go:225-238 | a reaper tick deletes exactly the reservations past their deadline, never an active entry nor one still reclaimable |
| RegistrySafety.ReservationEnds | internal/server/tunnel_manager.go:166-238 | a reservation neither renewed nor reclaimed does not survive the first reaper tick past its deadline |
| RegistrySafety.ReservationGoneInTime | internal/server/tunnel_manager.go:225-238 | with a reaper that ticks once per period it is gone one period after its deadline |
| RegistrySafety.PassKillsOnlyOldAnonymous | internal/server/tunnel_manager.go:364-416 | every entry that an expiry pass deletes is anonymous and older than the ttl when it goes, though it was picked under an earlier lock |
| RegistrySafety.CollectsOverdue | internal/server/tunnel_manager.go:369-383 | a pass collects an id if and only if an entry with it, in either map, has a token that begins with "anon:", is older than the ttl and, in the map of names, is not reserved |
| RegistrySafety.PassAccounts | internal/server/tunnel_manager.go:369-387 | until the next pass, what it has to kill and what it is done with are exactly the tunnels that were overdue at its clock read: anonymous, older than the ttl and, under a name, not reserved |
| RegistrySafety.PassClears | internal/server/tunnel_manager.go:364-389 | when the pass has worked through its list, every HTTP tunnel in use and every TCP tunnel that was anonymous and older than the ttl at its clock read is gone for good |
| TeardownSafety.LeavesIff | internal/server/tunnel_manager.go:97-238 | a registered tunnel leaves at a step if and only if the step kills it, reaps its expired reservation, reclaims its name, or is a teardown deleting its place |
| TeardownSafety.SnapshotFindsAll | internal/server/tunnel_manager.go:206-221 | a teardown's snapshot holds an entry of either map if and only if it is of its session, and nothing else |
| TeardownSafety.TeardownClears | internal/server/server.go:536-551 | over whole runs, when a teardown has worked off its list no tunnel that its session had at the snapshot is registered, then or later, and each charged one has been refunded |
| TeardownSafety.DeletesOtherIff | internal/server/server.go:536-551 | a teardown's deletion removes another tunnel than its own if and only if its own is gone and that one stands in its place |
| TeardownSafety.TeardownDeletesOtherIff | internal/server/server.go:536-551 | over whole runs: the deletion of a tunnel that the snapshot held hits another one if and only if the place is taken and, in between, a kill, the reaper, a reclaim or another session's teardown removed the tunnel of the snapshot |
| TeardownSafety.TeardownMayDeleteOther | internal/server/server.go:536-551 | a run in which a teardown removes another client's active, charged tunnel |
| LedgerSafety.CounterExact | internal/server/server.go:397-551 | at every moment of every interleaving a counter is the registered tunnels, plus requests under way, plus refunds that teardowns still owe, plus orphans |
| LedgerSafety.OrphansAre | internal/server/server.go:397-551 | the orphans are exactly the charged tunnels that an earlier step removed while no teardown held them; they are never refunded |
| LedgerSafety.WhoMakesOrphans | internal/server/tunnel_manager.go:391-416 | such a step is a kill, a reaper tick, a reclaim or a teardown deleting another tunnel than its own |
| Lifecycle.HTTPLife | internal/server/server.go:409-551 | from every state of every run in which no kill holds the lock: a session whose token has room registers a free valid name with exactly this entry, and its teardown leaves registry, listeners, requests and counters as they were |
| Lifecycle.TCPLife | internal/server/tunnel_manager.go:123-184 | likewise for a free port, with its listener opened and closed |
| Lifecycle.TeardownMayEnd | internal/server/server.go:536-551 | a teardown can always work off its list, whatever has been killed or taken over meanwhile |
| Lifecycle.RequestMayEnd | internal/server/tunnel_manager.go:123-156 | in every run a request in flight can always come to its end, registered or refused |
| Lifecycle.ExpiryMayEnd | internal/server/tunnel_manager.go:384-386 | an expiry pass can always work off its list, names, ports and ids that are gone |
| ControlPlane.ClockIs | internal/server/tunnel_manager.go:228 | the clock is where it was last advanced to and never goes back |
| ControlPlane.KeyKeepsLimit | internal/server/key_store.go:111-126 | a created key starts at zero, and the limit it is created with is its limit in every later state |
| AnonSafety.FrontRunsAreRuns | internal/server/server.go:324-355 | with each session serving its requests one after the other, check first, every run is a run of the control plane, so all results above apply |
| AnonSafety.OnePerAnonymousSession | internal/server/server.go:421-437 | however handlers interleave, an anonymous session never has two active tunnels, and no anonymous tunnel is a TCP one |
| AnonSafety.NextRequestWaits | internal/server/server.go:324-355 | a session takes its next request only when none of its requests is in flight |
| AnonSafety.SecondTunnelIff | internal/server/server.go:421-511 | when an anonymous request registers, its address has another active tunnel if and only if another session of the address registered it between this request's check and its registration and it is still active |
| AnonSafety.TwoSessionsTwoTunnels | internal/server/server.go:431-436 | a run in which two sessions of one address both pass the check and end up with two active tunnels |
| Handlers.RefusalChangesNothing | internal/server/server.go:409-534 | a tunnel request that is refused, wherever it fails, leaves registry and counters as they were |
| Handlers.AcceptedRequest | internal/server/server.go:409-513 | an accepted request had a legal port, passed the rate limit and, if anonymous, asked for a random HTTP name and held none; it leaves exactly one charge and one entry, given field by field, under the reply's name or port |
| Handlers.RefusedIff | internal/server/server.go:409-534 | a request is refused if and only if its port is outside 1 to 65535, it is anonymous and wants TCP, gives a name or holds an active tunnel, the rate limit says no, its token is unknown or at its limit, its type is unknown, or no port or name can be had, all read off the fields of the state |
| Handlers.WhichRefusal | internal/server/server.go:415-534 | and it gets the refusal of the first of these in the handler's order; a request that is stopped by none gets its port or its name |
| Handlers.FirstDrawnNameWins | internal/server/server.go:487-496 | a request without a name gets the first drawn name that it may register |
| Handlers.NoFreeNameIffCollisions | internal/server/server.go:487-502 | a request for a random name that nothing stops before its charge fails after it if and only if all drawn names are held by entries it cannot reclaim; otherwise it gets one of the drawn names |
| Handlers.TeardownExact | internal/server/server.go:536-551 | a teardown removes exactly its session's entries from both maps, leaves all others as they are, and refunds one unit for each of them |
| Handlers.AnyOrderTearsDown | internal/server/server.go:536-551 | dropping the snapshot's tunnels one by one is the teardown, in whatever order the maps were walked |
| Handlers.IdleTimeoutIsTeardown | internal/server/server.go:362-369 | the idle branch with the deferred cleanup is a plain teardown, whatever it reserved |
| Handlers.CounterIsLivePlusForgotten | internal/server/server.go:409-551 | over runs of whole handlers, a counter is the number of registered tunnels plus the tunnels removed by kill, reaper or reclaiming since the start |
| Handlers.NothingReservedBetweenHandlers | internal/server/server.go:259-262 | between handlers no entry is reserved |
| Handlers.ExactWithoutKills | internal/server/server.go:409-551 | in runs without kills the counter is exact: reaper and reclaiming never remove anything |
| Handlers.AnonAtMostOne | internal/server/server.go:421-437 | in runs of whole handlers an anonymous token never has more than one tunnel |
| Handlers.DriftStep | internal/server/tunnel_manager.go:391-416 | each handler moves a counter away from the number of tunnels by exactly the tunnels it removes without a refund |
| Server.RelayServer.HandleTunnelRequest | internal/server/server.go:409-478 | checks in order, charges, registers, refunds on failure: new registry, counters and reply are those of `Handle`, of which `RefusedIff`, `WhichRefusal` and `AcceptedRequest` say what they are |
| Server.RelayServer.CleanupSession | internal/server/server.go:536-551 | snapshot and loop over the shared records together perform `Teardown` on registry and counters |
| Server.RelayServer.EndIdleSession | internal/server/server.go:362-370 | reserve loop, for a minute from each clock read, and deferred cleanup together perform `IdleTimeout` |
| Server.RelayServer.AllocateRandomName | internal/server/server.go:487-502 | the retry loop registers under the first drawn name that is free, and nothing if none is |
| Server.RelayServer.CheckRequest | internal/server/server.go:415-445 | the refusals made before the charge, which `WhichRefusal` lists in the source's order |
| Server.RelayServer.ChargeStores | internal/server/server.go:447-459 | charges the store that counts the token, or nothing for an anonymous one, with the error of that store |
| Server.RelayServer.RefundStores | internal/server/server.go:397-406 | refunds the store that counts the token, with its floor at zero |
| Server.RelayServer.SnapshotOfRecords | internal/server/tunnel_manager.go:206-221 | the records of a session are its registry entries, each once |
| Manager.TunnelManager.RegisterHTTP | internal/server/tunnel_manager.go:97-119 | an invalid or held name is refused and changes nothing; a free one or an own live reservation is taken |
| Manager.TunnelManager.RegisterTCP | internal/server/tunnel_manager.go:123-156 | the first attempt whose port is neither registered nor bound succeeds, and the port is both afterwards; failure changes nothing and means every drawn port was registered or bound |
| Manager.TunnelManager.UnregisterHTTP | internal/server/tunnel_manager.go:159-163 | exactly the named entry is gone |
| Manager.TunnelManager.ReserveHTTP | internal/server/tunnel_manager.go:166-173 | the entry, if there is one, is reserved until the deadline; nothing else changes |
| Manager.TunnelManager.UnregisterTCP | internal/server/tunnel_manager.go:176-184 | the entry and the listener of its record are gone, nothing else |
| Manager.TunnelManager.LookupHTTP | internal/server/tunnel_manager.go:187-195 | finds the record of an active entry, and none for a missing or reserved one |
| Manager.TunnelManager.SessionTunnels | internal/server/tunnel_manager.go:206-221 | every record of the session, in both maps, exactly once |
| Manager.TunnelManager.TunnelsForAnon | internal/server/tunnel_manager.go:346-361 | exactly the active records of the token |
| Manager.TunnelManager.ReapOnce | internal/server/tunnel_manager.go:228-237 | the delete-while-walking loop removes exactly the expired reservations |
| Manager.TunnelManager.KillTunnelByID | internal/server/tunnel_manager.go:391-416 | deletes one entry with the id, HTTP before TCP, with its listener, and closes its session; false if and only if no entry has it |
| Tunnels.RegisteredNameRoutes | internal/server/http_proxy.go:118-163 | a name with an active entry is reached by server name or Host header under every spelling of its URL's host, past the dashboard's names |
| Tunnels.DashboardIff | internal/server/http_proxy.go:118-141 | a request reaches the dashboard if and only if it is enabled and the deciding host says nothing, www, admin or dashboard; the server name decides unless it says nothing |
| Tunnels.DashboardHosts | internal/server/http_proxy.go:138-141 | the bare domain and its three special names do, in any letter case, with or without port |
| Tunnels.TunnelReachedIff | internal/server/http_proxy.go:138-163 | a request whose deciding host says a valid name reaches the active entry of that name and is not found if there is none |
| Tunnels.TargetIsNamed | internal/server/http_proxy.go:138-163 | whatever tunnel a request reaches is active under the name its deciding host says; what is not found says no name in use |
| Tunnels.ReservedNameIsHeld | internal/server/tunnel_manager.go:97-238 | a reserved name is not served; until its deadline exactly its own token may take it, after it nobody until the reaper deletes it, which it does at any later clock read; other names are untouched |
| Names.RandomSubdomain | internal/server/tunnel_manager.go:85-92 | whatever is drawn, the name is one RegisterHTTP accepts |
| Names.ValidNameIff | internal/server/tunnel_manager.go:71-82 | a name is accepted if and only if it has 3 to 63 letters, digits and hyphens, no hyphen at an end, and is none of eight words; each other name gets the error of the first rule it breaks |
| Names.LoweredIs | internal/server/http_proxy.go:376-396 | lower-casing replaces each capital by the small letter at its place in the alphabet, changes nothing else and is done after one go |
| Names.HostNamesTunnel | internal/server/http_proxy.go:376-396 | a Host that spells a label below the domain in any case, with or without port, yields exactly that label |
| Names.HostYieldsNameIff | internal/server/http_proxy.go:376-396 | a Host yields a given name if and only if its first label spells it and it is neither the bare domain nor a deeper name below it; hosts outside the domain count too |
| Names.HostYieldsNothingIff | internal/server/http_proxy.go:376-396 | it yields none if and only if it is the bare domain, or empty or begins with a dot and is no deeper name below the domain |
| Names.DomainIsCutOff | internal/server/http_proxy.go:376-396 | whatever stands before the domain is yielded whole, also several labels |
| Names.ClientRemembersName | internal/client/reconnect.go:212-225 | the client's parse of the URL it was sent is the registered name |
| Names.ExtractSubdomainFromURL | internal/client/reconnect.go:212-225 | the loop returns the text before the first dot after the scheme |
| Names.ValidNameShape | internal/server/http_proxy.go:139-140 | a valid name is none of the dashboard's, has no dot or colon and is its own lower case |
| Names.MaskSelects | internal/dashboard/handler.go:540-545 | the masked filter of a user's view is never empty and equals the logged mask of a token exactly when both are short or share their first and last four characters |
| Quotas.ChargeEffect | internal/server/auth.go:60-72 | a granted charge raises the token's counter by one, within its limit, and no other |
| Quotas.ChargeGrantedIff | internal/server/server.go:447-459 | a charge is granted if and only if the token is anonymous or known to its store and below its limit; otherwise the error says which of the two fails |
| Quotas.RefundEffect | internal/server/auth.go:75-81 | a refund lowers the token's counter by one, or leaves it at zero, and touches no other and no limit |
| Quotas.RefundUndoesCharge | internal/server/server.go:447-459 | a refund undoes a granted charge completely |
| Quotas.TokenStore.IncrementTunnels | internal/server/auth.go:60-72 | refuses unknown tokens and tokens at their limit, else counts one up |
| Quotas.TokenStore.DecrementTunnels | internal/server/auth.go:75-81 | counts one down, not below zero |
| Quotas.NewTokenStore | internal/server/auth.go:27-45 | every token of the configuration that is not empty starts at zero with the configured limit; no store if and only if one of them cannot be hashed |
| KeyStores.PartitionAlways | internal/server/key_store.go:90-212 | from any partitioned store without an active empty key, every run of create, add, remove, revoke and counting keeps each name owned by at most one active key, and every name owned later is valid or was owned by the same key at the start |
| KeyStores.KeepsPartitionIff | internal/server/key_store.go:90-212 | from a partitioned store every run keeps the partition if and only if the empty string is not one of its active keys |
| KeyStores.ClaimStep | internal/server/key_store.go:102-109 | a name newly owned after an operation is valid and goes to the key that asked; unless the empty string is an active key, it had no owner before |
| KeyStores.OwnershipAfter | internal/server/key_store.go:90-212 | exactly who owns what after each operation, in terms of who did before |
| Server.KeyOperationIsHandler | internal/server/key_store.go:90-212 | to the control plane an operation of the key store is the step that adds a counter at zero with a positive limit, if it is a successful create, and no step otherwise |
| KeyStores.LookupOrderIndependentIff | internal/server/key_store.go:159-171 | the owner lookup is independent of map iteration order if and only if no name has two active owners |
| KeyStores.EmptyKeyBreaksPartition | internal/server/key_store.go:39-71 | from every partitioned store with an active empty key there is a run, of removing, adding and creating, that breaks the partition |
| KeyStores.KeyStore.FindSubdomainOwner | internal/server/key_store.go:159-171 | returns an active owner, or the empty string if there is none |
| KeyStores.KeyStore.CreateKey | internal/server/key_store.go:90-126 | an empty name, the first name that is bad or whose lookup answers an owner, or a failed save is reported and leaves the store unchanged; otherwise the new key is there. Unless the empty string is an active key, the names are granted if and only if each is valid and has no owner |
| KeyStores.ClaimsGrantedIff | internal/server/key_store.go:102-109 | and then whatever order the lookups walk the map in |
| KeyStores.CreateVerdict | internal/server/key_store.go:90-126 | without an active empty key: an empty name is refused first, then the first requested name that is invalid or owned, with that reason, then a failed save |
| KeyStores.AddVerdict | internal/server/key_store.go:174-193 | on a sound store: refuses an invalid name, then an unknown or revoked key, accepts a name the key owns, refuses one another key owns, and reports a failed save of a new one |
| KeyStores.PreviewSharedIff | internal/server/key_store.go:250-261 | two keys share a preview if and only if they are equal or both have at least twelve characters and agree in the first eight and the last four |
| KeyStores.KeyStore.AddSubdomain | internal/server/key_store.go:174-193 | claims a valid name nobody owns for an active key; a failed save is reported and the claim stays in memory |
| KeyStores.KeyStore.RemoveSubdomain | internal/server/key_store.go:196-212 | drops every occurrence of the name from the key and nothing else |
| KeyStores.KeyStore.RevokeKey | internal/server/key_store.go:129-139 | deactivates the key of that name if there is one, else one whose preview it is; not found if and only if there is neither |
| KeyStores.KeyStore.IncrementTunnels | internal/server/key_store.go:215-227 | refuses unknown keys and keys at their limit, else counts one up and touches nothing else of any key |
| KeyStores.KeyStore.DecrementTunnels | internal/server/key_store.go:230-236 | counts one down, not below zero, and touches nothing else of any key |
| Codec.DecodeFrameIff | internal/protocol/codec.go:27-116 | decoding gives back an encoded message and the rest of the stream if and only if its payload is within the cap, for payloads of any length |
| Codec.FrameBytes | internal/protocol/codec.go:27-56 | byte by byte: the length of what follows, most significant byte first and modulo 2^32, then 1, the type and the payload |
| Codec.WhichError | internal/protocol/codec.go:75-116 | a stream that does not decode is reported by the first of: no length, length under 2, over a mebibyte, no version and type, another version, payload cut short |
| Codec.DecodeConsumesFrame | internal/protocol/codec.go:75-116 | a successful decode consumed exactly the bytes that encoding its result produces |
| Codec.StrictPrefixRejected | internal/protocol/codec.go:75-116 | every strict prefix of a frame is rejected, as a truncated stream |
| Codec.DecodeAllInverts | internal/protocol/codec.go:27-116 | decoding a concatenation of frames gives exactly those messages and stops exactly behind them |
| Codec.FramesOfDecodeAll | internal/protocol/codec.go:75-116 | whatever is decoded from a stream, the stream was the frames of it up to where decoding stopped |
| Codec.Encoder.Encode | internal/protocol/codec.go:27-56 | the whole frame is written, or what a failing writer took is a strict prefix of it |
| Codec.Decoder.DecodeNext | internal/protocol/codec.go:75-116 | whatever chunks the reader hands out, result, error and position are those of decoding the stream |
| Codec.Reader.ReadFull | internal/protocol/codec.go:76-113 | reads exactly so many bytes, however they arrive, and fails only if there are fewer |
| SharedEncoder.DecoderSeesWholeMessages | internal/protocol/codec.go:44-55 | under any schedule the output is whole frames and then part of the lock holder's, and a decoder gets exactly the finished messages, in lock order |
| SharedEncoder.EveryMessageOnce | internal/protocol/codec.go:44-55 | when all are done, the decoder received each goroutine's messages, each exactly once and in its order |
| SharedEncoder.EverybodyMayFinish | internal/protocol/codec.go:44-55 | from every moment of every schedule there is a way on in which everybody sends everything |
| RateLimit.EvictionUnobservable | internal/server/auth.go:109-138 | for every timed sequence of checks and cleanups the limiter answers as one that never evicts, from any two tables that give the same levels |
| RateLimit.EvictionUnobservableFromStart | internal/server/auth.go:98-138 | in particular from the empty table |
| RateLimit.SweepUnobservable | internal/server/auth.go:125-138 | dropping an entry unseen for ten minutes changes nobody's level from then on |
| RateLimit.IPWindowBound | internal/server/auth.go:98-122 | in every window of w seconds the per-IP limiter with its cleanup admits at most n + n·w/60 requests of an address |
| RateLimit.AllowIPIff | internal/server/auth.go:109-122 | a connection is admitted if and only if a whole token is there for its address, and then takes one; no other address is touched |
| RateLimit.BurstAdmits | internal/server/auth.go:98-122 | of k connections at once of an address never heard of, under n per minute, exactly the lesser of k and n are admitted |
| RateLimit.RefusedOnlyWhenUsedUp | internal/server/auth.go:98-138 | from the start of the server an address is refused only if, in some window that ends with the refusal, it was admitted more than n + w·n/60 - 1 times |
| RateLimit.TokenWindowBound | internal/server/auth.go:150-172 | in every window, with requests asking the two buckets in any interleaving, at most B + B·w/60 requests of a token pass its bucket and at most G + G·w/60 pass both, although a per-token refusal spends a global token |
| RateLimit.AllowTokenIff | internal/server/auth.go:160-172 | a request is allowed if and only if a whole token is there in both buckets; finding one in the global bucket takes it even if the other refuses |
| RateLimit.AdmittedAreAllowed | internal/server/auth.go:160-172 | for requests that do not interleave, the counts that are bounded there are the numbers of requests allowed, of everybody and of the token |
| RateLimit.IPRateLimiter.Allow | internal/server/auth.go:109-122 | answer and table are those of the bucket model, also for an address seen for the first time; `AllowIPIff` says what they are |
| RateLimit.IPRateLimiter.Cleanup | internal/server/auth.go:125-138 | removes exactly the entries that were last seen more than ten minutes ago |
| RateLimit.RateLimiter.Allow | internal/server/auth.go:160-172 | asks the global bucket first and the token's own only then, each at its own clock read; `AllowTokenIff` says with which answer and effect |
| RateLimit.PerMinuteIsSteady | internal/server/auth.go:98-106 | a rate of n per minute fills the burst in a minute, evenly |
| RequestLogs.RequestLog.Add | internal/server/request_log.go:66-74 | one more entry in the history, also when the ring wraps |
| RequestLogs.RequestLog.Snapshot | internal/server/request_log.go:106-138 | copy, in-place reversal and filter yield the view of the plain history: the last 10000 entries newest first, filtered |
| RequestLogs.RequestLog.Recent | internal/server/request_log.go:142-148 | a prefix of that view |
| RequestLogs.RequestLog.Traffic | internal/server/request_log.go:152-225 | each bucket reports its minute of the view, and their requests and bytes add up to its entries younger than the window |
| RequestLogs.ViewAfterAdd | internal/server/request_log.go:66-138 | a new entry comes first in every view it belongs to and in no other; at the full ring the oldest makes room |
| RequestLogs.RetainedIs | internal/server/request_log.go:66-74 | the newest 10000 entries, or all if there are fewer |
| RequestLogs.PrefixIs | internal/server/request_log.go:142-148 | a positive limit cuts a longer answer to its length, any other cuts nothing |
| RequestLogs.FilteredIs | internal/server/request_log.go:131-137 | the filter keeps exactly the entries of the token |
| RequestLogs.FilteredSplits | internal/server/request_log.go:131-137 | and their order |
| RequestLogs.UserViewComplete | internal/dashboard/handler.go:394-413 | a user's view under the masked key is filtered and holds exactly the retained entries logged under that mask |
| RequestLogs.RingStep | internal/server/request_log.go:66-74 | one store keeps the ring equal to the newest entries of the history, filling or wrapped |
| RequestLogs.ReverseInPlace | internal/server/request_log.go:124-126 | the swap loop reverses the array |
| Analytics.TrafficStats | internal/server/request_log.go:152-225 | bucket i is dated with the start of its minute and holds the number of entries of that age, of those with a status below 300, in the 300s, in the 400s and above, their bytes and their mean latency rounded toward zero |
| Analytics.TrafficConserved | internal/server/request_log.go:152-225 | the buckets' requests sum to the entries younger than the window, bytes likewise, and the four status counts of each bucket to its requests |
| Analytics.CountedIffYounger | internal/server/request_log.go:173-183 | the two skips of the loop leave out exactly the entries not younger than the window |
| Analytics.TopPaths | internal/server/request_log.go:229-246 | distinct paths with exact counts in descending order, and no omitted path outranks a returned one |
| Analytics.SortByCount | internal/server/request_log.go:235-241 | the counts as a descending list, each path once |
| PubSub.NeverPanics | internal/server/request_log_adapter.go:70-107 | in no interleaving of adds, subscriptions, forwarders and unsubscriptions, repeated ones included, is there a send on a closed channel or a second close |
| PubSub.PanicsIff | internal/server/request_log.go:77-82 | a step panics if and only if it sends on a channel that is closed or missing or closes one that is closed |
| PubSub.ClosedOnce | internal/server/request_log_adapter.go:83-106 | each source and each destination channel is closed by at most one step of a run |
| PubSub.ReceivesSubsequence | internal/server/request_log.go:66-102 | with sequential adds every subscriber has received a subsequence of the entries added: some may be missing, none is repeated, reordered or invented |
| PubSub.NothingLostWithoutOverflow | internal/server/request_log_adapter.go:78-87 | while no channel of a subscription is full when it is sent to, what its subscriber got or will get grows by exactly the entries offered to it, in order, under any interleaving; which those are, `OfferedExactlyOnce` says |
| PubSub.OfferedExactlyOnce | internal/server/request_log.go:66-83 | in every run an entry is offered, between the start and the end of its fan-out, exactly once to each subscriber of the moment of the start, and to nobody else |
| PubSub.EntryArrivesOnce | internal/server/request_log.go:66-83 | so while nothing overflows, a fan-out puts its entry into what each subscriber will get once, among what other adders offer meanwhile |
| PubSub.DropsOnlyWhenFull | internal/server/request_log_adapter.go:78-87 | no channel ever holds more than 64 entries, and one is dropped only at a channel that holds as many |
| PubSub.PipelineMayEmpty | internal/server/request_log_adapter.go:78-87 | from every state everything that was offered to a subscriber and not dropped can reach it |
| PubSub.SubscriptionMayEnd | internal/server/request_log_adapter.go:78-107 | an Unsubscribe can go through: the subscriber gets the rest, the forwarder exits, both channels are closed |
| PubSub.FanOutMayEnd | internal/server/request_log.go:77-83 | an adder can always finish its fan-out and release the read lock |
| Heartbeat.PromptDeliveryKeepsSession | internal/server/server.go:318-370 | with timers acted on within any lag below 30 seconds: if every control message is processed in under 30 seconds less that lag, no run has a client at three misses or an idle timer come due |
| Heartbeat.ThirtySecondsAreTooMany | internal/client/reconnect.go:154-208 | with punctual timers, for any bound above 30 seconds there is a run, with nothing lost, in which the client gives up |
| Heartbeat.SilenceIsNoticed | internal/client/reconnect.go:175-208 | in every run a client that is up had an acknowledgement within 90 seconds and the lag, and a server that is up a message |
| Heartbeat.SilenceBoundIsTight | internal/server/server.go:318-370 | for every lag there is a run that meets both bounds exactly, where both sides may give up and no more time can pass before they do |
| Heartbeat.EndedStaysEnded | internal/server/server.go:362-370 | a side that has given up takes no further step |
| Heartbeat.StreamsKeepOrder | internal/client/reconnect.go:154-208 | what was read is at every moment a prefix of what was sent, in both directions, and the rest is on its way |
| Heartbeat.ThirdTickEnds | internal/client/reconnect.go:199-206 | while no acknowledgement comes every tick is a miss, and the third ends the session |
| Reconnect.RunHeartbeat | internal/client/reconnect.go:154-208 | the loop ends at the first event that ends it and with its reason; dead exactly at the third tick since the last acknowledgement |
| Reconnect.MissesSinceAck | internal/client/reconnect.go:188-203 | the miss counter is the number of ticks since the last acknowledgement |
| Reconnect.EndsIff | internal/client/reconnect.go:154-208 | an event ends the loop if and only if it cancels it, is a failed read or send, or is at least the third tick since the last acknowledgement; each with its reason |
| Reconnect.Reconnector.Run | internal/client/reconnect.go:52-114 | the wait after a failed attempt is given by the failures in a row before it, each request asks for the name of the last tunnel served, and the loop ends at once or at the first attempt during which it is cancelled |
| Reconnect.BackoffDoubles | internal/client/reconnect.go:72-76 | the wait is one second, doubles up to sixty and stays there |
| Reconnect.KeepsAskingForName | internal/client/reconnect.go:95-123 | after a tunnel was served, however many attempts fail, the client keeps asking for the name that was registered |
| Reconnect.RememberedIs | internal/client/reconnect.go:95-123 | the remembered name is the first label of the last URL that was received, else the one the client started with |
| WebSocket.ProxyWebSocket | internal/server/http_proxy.go:241-289 | from the hijack to the end, for every read-ahead, chunking and schedule: the client got the answer and everything the backend sent behind it, the backend a prefix of the request and everything the client sent behind it, all of it unless and only unless the backend's side ended first with bytes still to come |
| WebSocket.HandOver | internal/server/http_proxy.go:241-284 | what the peer got so far and what is still unread make up exactly request or answer and everything behind it, in both directions; it succeeds if and only if the answer has a head that parses and its whole body |
| WebSocket.PassAnswer | internal/server/http_proxy.go:263-284 | passing the answer and its body on takes nothing from the bytes behind it |
| WebSocket.BufferedReader.ReadHead | internal/server/http_proxy.go:263-264 | line-wise reading consumes exactly the bytes up to the first empty line |
| WebSocket.HeadIs | internal/server/http_proxy.go:263-264 | a head ends where first a line feed follows a line feed, with or without a carriage return in between |
| WebSocket.Copy | internal/server/tcp_proxy.go:111-121 | the copy loop moves the whole rest of the source, in order |
| WebSocket.ProxyBidirectional | internal/server/tcp_proxy.go:101-127 | the two copiers, scheduled at will, perform a run of the relay to its end |
| WebSocket.RelayLosesNothing | internal/server/tcp_proxy.go:101-127 | in every schedule of the two copiers, delivered, held and outstanding bytes make up the source in order; towards the public side a copy ends only complete |
| WebSocket.IncompleteIffCutOff | internal/server/tcp_proxy.go:111-121 | a copy towards the tunnel that has ended is incomplete if and only if the other one ended while bytes were still to come |
| WebSocket.EndsOnce | internal/server/tcp_proxy.go:101-127 | a direction ends once, and nothing is read or written in it afterwards |
| WebSocket.UpMayBeCut | internal/server/tcp_proxy.go:111-121 | for anything still to come there is a schedule in which all of it is lost |

## Left out

- TLS, certificates, DNS, yamux and real sockets: a session is an identity, the network a set of bound ports, a connection a byte source and a byte sink.
- JSON, YAML and key files: a payload is a byte sequence, saving is a flag that says whether it worked.
- Password hashing, random generation and key secrecy: draws are parameters.
- The authentication exchange, self-registration and account queries: they read one value or call `CreateKey`.
- Dashboard HTTP handlers, server-sent events, static pages, command line, wizard, upgrade and backup: input, output and one-branch choices.
- BytesIn and BytesOut totals: they are updated without synchronisation, so no exact count follows from the code.
- Request rewriting and forwarding headers of the reverse proxy: calls into foreign code.
- WebSocket.HandOver: the body of a refusing answer has a length given by its head; bodies that are chunked, and printed in new chunks, are not modelled.
- Heartbeat.PromptDeliveryKeepsSession: the bound is exact for punctual timers only; with a lag, a slightly larger one may do.
- PubSub.ReceivesSubsequence: needs sequential adds, because the ring and the subscribers are under two locks and concurrent adds may be delivered in another order than they are stored.
- Reconnect.Reconnector.Run: TCP tunnels, which remember no name, are served with an empty URL.
- Manager.TunnelManager.RegisterTCP: the whole call without interruption; its interleavings are in ControlPlane.
- Server.RelayServer.AllocateRandomName: one clock read for all attempts of a request.
- RateLimit.TokenWindowBound: each bucket sees its clock reads in order, while the source reads the clock outside the bucket's lock.
