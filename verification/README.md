# ovn-network-agent, verified

The agent runs on every network node of an OVN deployment. It finds the routers
whose gateway is on its node, announces their addresses, keeps the gateway
priorities of the HA group in order, and translates forwarded ports. This project
models the parts of it that decide and keep state, and proves what they promise:

- **Failover protocol** (`GatewayPriority`, `FailoverProtocol`): the writes to
  `Gateway_Chassis.priority` as methods over a table of which a cache may have
  lost rows, and a transition system in which any number of agents restore,
  drain and boost while ovn-northd elects.
- **Route reconciliation** (`RouteReconcile`): two route planes changed one
  command at a time, each of which may fail, with every command logged and every
  call judged by its log.
- **State derivation** (`Networks`, `OvnTables`, `ContentKeys`, `CacheGuard`,
  `StateDerivation`, `StateRefresh`, `JoinProofs`, `CacheTransparency`): the
  guarded reads and the hash joins of a refresh, against a join stated over sets
  of rows.
- **Event loop** (`RefreshLoop`): two channels of capacity 1 and two timers.
- **Shared northbound rows** (`NorthboundEntries`, `NorthboundOwnership`,
  `StaleChassis`, `ReconcileCycle`, `NorthboundRuns`, `Shutdown`): ensures,
  ownership-based cleanups, the grace period, runs in which the cycles of any number
  of agents interleave, and the drained shutdown.
- **Port forwarding** (`AddressText`, `PortForwardConfig`, `NftCompiler`,
  `NftCorrectness`, `NftLoad`, `NftTable`): validation, the compiler to nftables
  chains, a packet semantics for them, what a load of the ruleset needs, and the
  table in the kernel from the set-up through every reload.
- **Smaller reconciliations** (`PrefixList`, `VethLeak`) and the gateway
  arithmetic (`Ipv4`).

The databases, vtysh, netlink and nft are small mathematical states; an operation
on them succeeds or fails nondeterministically, and what a failing batch leaves
behind is any part of it. Library functions that read texts (`net.ParseIP`,
`net.ParseCIDR`, `strings.Fields`) or compare them (`strings.EqualFold`), and all
arithmetic on IPv6 networks, are parameters, as is the hash of a packet's source
address.

`dafny verify dfyconfig.toml` checks the whole project.

## What the proofs found

- A boost while a port is bound nowhere is not harmless, as the comment at
  `ovn_gateway.go:980-985` has it: it can move the port, and repeated, it raises
  priorities without bound. Priorities stay bounded exactly when the port of every
  LRP with two rows is bound.
- A refresh that fails is not retried: only the next database event refreshes
  again, the periodic reconciliation does not (`agent.go:216-222`). The loop at
  rest is current exactly when some refresh after the last event did not fail.
- `ensureRoutes` deletes a kernel route also when the FRR withdrawal of the same
  address has failed, so the address stays announced without one. The blackholes a
  call creates are exactly these addresses and the desired ones announced after
  their kernel add has failed.
- Validation accepts an IPv4-mapped text such as `::ffff:192.0.2.1` for a VIP or a
  backend. `nft` reads dotted quads only (read off its grammar), so the set-up fails
  and the agent does not start. Of the configuration it takes exactly that VIPs and
  backends are dotted quads.
- One IPv6 provider network, or with router masquerading one IPv6 SNAT address, makes
  every reload fail. The entries go on working, but the guard and the SNAT chain stay
  those of the last reload that was taken; from the start that is a guard without
  provider networks, which drops the return traffic of the IPv4 ones too. The same
  network ends every veth-leak pass before its rules.
- Behind a refresh in flight two follow-ups can start without another event, where
  the comment at `ovn.go:653-656` has one: exactly when both channels are full.
- A route that a takeover chassis claims between the reading of a cleanup and its
  delete is deleted with the new owner's tag on it.
- A further ensure of the same gateway rewrites a route exactly when the router has
  another visible managed default route that differs, so two of them are rewritten in
  turn or not as the listing order has it.
- Masquerading is decided per backend tuple, so a rule that opts out is
  masqueraded when another rule to the same backend does not.
- Next to a default route of somebody else, the MAC binding just ensured can be
  removed by the cleanup of a dead chassis in the same cycle.
- Veth-leak routes of undesired networks installed through an earlier nexthop are
  never removed.
- A prefix-list with two entries for one undesired network keeps one of them
  after a pass.

## Model

| member | source | states |
|---|---|---|
| FailoverProtocol.NoReverseFailover | ovn_gateway.go:87-224 | Over any interleaving of restores, drains of other chassis, active-lead passes with any part of the table cached and any stale snapshot, and elections, a row of priority at least 2 strictly above its peers keeps that lead |
| FailoverProtocol.BindingLeavesOnlyAfterDrain | ovn_gateway.go:87-224 | While such a lead holds the port stays bound to its chassis until that chassis is drained |
| FailoverProtocol.StrictLeadSurvivesRestore | ovn_gateway.go:783-841 | A strict lead survives every restore of every peer if and only if it is at least 2 or no peer is drained: why the constants are 0, 1 and 2 |
| FailoverProtocol.BoostRaises | ovn_gateway.go:198-218 | An active-lead write strictly raises the row it writes and no other row changes |
| FailoverProtocol.OnePassEstablishesLead | ovn_gateway.go:155-218 | With the group in view, one pass of the bound chassis gives it the strict lead |
| FailoverProtocol.OnePassLeadsByName | ovn_gateway.go:155-218 | For rows given by their names: one pass of a chassis lifts its row <lrp>_<chassis> of an LRP in the snapshot, with a peer row <lrp>_<d> in view and the port not bound elsewhere, to at least 2 and above every such peer |
| FailoverProtocol.SecondPassWritesNothing | ovn_gateway.go:155-224 | The next pass over the same view changes nothing |
| FailoverProtocol.DrainIsComplete | ovn_gateway.go:675-728 | A drain leaves every row of its chassis at 0 exactly when the cache showed all the rows that were not, or none of the chassis's rows |
| FailoverProtocol.DrainedPortMigrates | ovn_gateway.go:655-674 | After a drain an election moves the port whatever the tie-break exactly when some peer is above 0 |
| FailoverProtocol.PrioritiesDoNotRatchet | ovn_gateway.go:155-218 | From priorities up to m with the port of every LRP that has two rows bound, no priority of any run exceeds max(m, 1) + 1 and only a chassis holding the port is there |
| FailoverProtocol.UnboundPortRatchets | ovn_gateway.go:980-985 | In any table with two rows of an unbound port, for every n some run of active-lead passes takes one of them to n or above, the port still unbound |
| FailoverProtocol.BoundedExactlyWhenBound | ovn_gateway.go:155-218 | The priorities of all runs from a state stay below some bound if and only if the port of every LRP with two rows is bound in it |
| FailoverProtocol.BoostOfUnboundPortMovesIt | ovn_gateway.go:980-985 | Whatever else is in the table, a boost while the leader's port is unbound makes the booster the only row an election of that port can choose, so the source's comment that such a boost is harmless does not hold |
| FailoverProtocol.LeadLostExactlyByOverbid | ovn_gateway.go:183-218 | Whether or not the port is bound, a pass by another chassis reaches a leading row exactly when it boosts and its view shows the leading row or a peer one below, or the lead is only 2 |
| GatewayPriority.FilterDrainCandidates | ovn_gateway.go:868-879 | Exactly the chassis's rows above 0, and whether any of its rows was seen |
| GatewayPriority.FilterRestoreCandidates | ovn_gateway.go:849-860 | Exactly the chassis's rows at 0, and whether any of its rows was seen |
| GatewayPriority.GroupRows | ovn_gateway.go:124-160 | Each group of an active port holds the local row and the highest peer priority of the rows in view |
| GatewayPriority.BoostGroup | ovn_gateway.go:161-213 | One group: no write, or its local row to the lead priority, exactly when a boost is due |
| GatewayPriority.BoostWrites | ovn_gateway.go:124-218 | The batch raises exactly the rows a boost is due for, each to one above its highest peer and at least to 2 |
| GatewayPriority.LrpOfNamedRow | ovn_gateway.go:155-160 | The LRP read off a row named <lrp>_<chassis> is that LRP, whatever underscores the two names have |
| GatewayPriority.LeadRelByName | ovn_gateway.go:161-218 | For rows given by their names: a write is due exactly for the chassis's row of an LRP in the snapshot that has a peer in view, does not lead, and whose port, by the last snapshot entry, is not bound elsewhere; it ends one above the highest peer and at least at 2 |
| GatewayPriority.OvnNorthbound.SelectLocal | ovn_gateway.go:885-909 | The server select returns exactly the chassis's current rows |
| GatewayPriority.OvnNorthbound.RestoreDrainedGateways | ovn_gateway.go:796-841 | The new table is the old one with the visible drained rows of the chassis at 1, read from the server when the cache shows no row of it; only a failed read or write leaves the table unchanged with an error |
| GatewayPriority.OvnNorthbound.AwaitMigration | ovn_gateway.go:726-760 | Migrated exactly at the first poll that counts no port, timed out exactly when every poll counts some |
| GatewayPriority.OvnNorthbound.DrainGateways | ovn_gateway.go:675-760 | The new table is the old one with the visible rows of the chassis at 0, read from the server when the cache shows none of it and written before the first poll; without failures it is written exactly when such a row is above 0, and nothing to drain means there is none |
| GatewayPriority.OvnNorthbound.EnsureActivePriorityLead | ovn_gateway.go:112-224 | The new table differs from the old one exactly by the due boosts, stated also by row names, in one transaction; only a failed read or write ends without them |
| RouteReconcile.NoTransientBlackhole | agent.go:502-574 | Between any two moments of a call an address becomes announced without a kernel route only if it is desired and its kernel add has failed, or stale, its kernel route deleted and not withdrawn, with a failed withdrawal batch or FRR unlisted |
| RouteReconcile.PlanesExactly | agent.go:485-574 | At any moment of a call an address is in a plane exactly as the call's own effective commands for it say |
| RouteReconcile.BlackholeExactly | agent.go:502-574 | At any moment of a call the new blackholes are exactly the desired addresses announced after a failed kernel add and the stale ones deleted but not withdrawn after a failed withdrawal |
| RouteReconcile.StaleBlackholedExactly | agent.go:535-574 | A stale address of both planes is announced without a kernel route if and only if its delete took effect and its withdrawal did not |
| RouteReconcile.NothingWantedIsLost | agent.go:485-574 | From any moment of a call to any later one no desired and no unmanaged route is lost from either plane, routes added by the call included, and only desired routes are added |
| RouteReconcile.FaultFreeCallNeverBlackholes | agent.go:485-574 | In a call without failures, from any moment to any later one, no address becomes announced without a kernel route |
| RouteReconcile.FailedWithdrawalBlackholes | agent.go:548-574 | The failing run: a withdrawal fails, the delete of the same address does not, and it ends up announced without a kernel route |
| RouteReconcile.CleanPassLeavesUnmanagedOnly | agent.go:485-574 | After a pass without failures only unmanaged addresses are announced without a kernel route |
| RouteReconcile.TargetIsSettled | agent.go:485-574 | The state a pass aims at is one in which nothing is left to add or remove |
| RouteReconcile.TargetReached | agent.go:510-574 | Adding the missing and removing the stale addresses of a plane reaches exactly the desired plus its unmanaged ones |
| RouteReconcile.ManagedExactly | agent.go:790-810 | An address is managed when there are no filters or when it lies between the first and the last address of an IPv4 one |
| RouteReconcile.RouteAgent.AddFrrRoutes | routing.go:125-156 | Batches of 500, the last one smaller: whatever fails, only listed addresses are added, each after its kernel route or its failed add, and without failure all are present |
| RouteReconcile.RouteAgent.DelFrrRoutes | routing.go:166-197 | The same for withdrawals |
| RouteReconcile.RouteAgent.AddMissingKernel | agent.go:502-520 | The kernel routes of all missing desired addresses, one command each, and the list of addresses FRR is missing, each of which may now be announced |
| RouteReconcile.RouteAgent.AddMissing | agent.go:502-533 | Kernel routes first, then the FRR batches: only missing desired addresses are added, and without failures all of them |
| RouteReconcile.RouteAgent.RemoveStale | agent.go:535-574 | FRR withdrawals first, then kernel deletes, of managed undesired addresses only; a kernel route still announced is deleted only after a failed withdrawal |
| RouteReconcile.RouteAgent.EnsureRoutes | agent.go:473-596 | Under any failures the call's log is lawful, so the results above hold of it; a BGP refresh follows the batches exactly when there were any, without failures that is exactly when FRR misses a route or a stale one was left, and then the planes are listed again and everything managed that is missing is tried once more; every missing and every stale kernel route is tried; without failures each plane becomes the desired addresses plus its unmanaged ones, and from such a state nothing is executed |
| RouteReconcile.RouteAgent.ReAddKernelRoutes | agent.go:719-745 | Every managed desired kernel route that is gone is tried again, and exactly the FRR routes that are gone are collected |
| RouteReconcile.RouteAgent.VerifyRoutes | agent.go:699-767 | Without failures both planes get back exactly the managed desired addresses; with failures everything missing is tried once the planes are listed; nothing is executed and the counter zeroed exactly when nothing is missing, otherwise it counts up |
| RouteReconcile.RouteAgent.RemoveAllRoutes | agent.go:600-645 | A lawful call with nothing desired, followed by a BGP refresh exactly when it issued a batch, without failures when a managed route was announced; without failures exactly the unmanaged routes stay in each plane |
| RouteReconcile.RouteAgent.FilterManaged | agent.go:605-625 | Exactly the managed addresses of a list |
| RefreshLoop.NoEventLost | ovn.go:657-711 | From the start of the loop, in every schedule, an event newer than the last refresh start has a signal or timer pending, and a finished refresh not yet notified a timer or a queued reconciliation |
| RefreshLoop.ImmediateRefreshReconcilesAtOnce | ovn.go:695-708 | In every schedule, from the end of an immediate refresh until the next reconciliation one is queued, without the reconcile timer |
| RefreshLoop.QueuedExactly | ovn.go:657-711 | A reconciliation is queued at a moment if and only if since the last one an immediate refresh has finished or the reconcile timer has fired |
| RefreshLoop.DebouncedRefreshWaitsForTimer | ovn.go:674-693 | A debounced refresh becomes reconcilable only through the timer, unless a reconciliation was queued already |
| RefreshLoop.ReconciledIsPublished | agent.go:213-222 | In every schedule, after a queued or a periodic reconciliation the agent has acted on the last published state |
| RefreshLoop.EventsCoalesce | ovn.go:641-656 | In every schedule the refreshes started and those still to start never exceed the events |
| RefreshLoop.RefreshesLeftExactly | ovn.go:641-656 | From any state n more refreshes can start without another event if and only if n is at most the number of full channels and armed timers |
| RefreshLoop.FollowUpsExactly | ovn.go:653-656 | Behind a refresh in flight as many follow-ups can start as channels are full, so the promised single one is exceeded exactly when both are |
| RefreshLoop.TwoFollowUpsStart | ovn.go:653-656 | The failing input: one event of each kind during a refresh, and two follow-ups start |
| RefreshLoop.ThreeRefreshesStart | ovn.go:665-711 | With the timer armed and both channels full three refreshes start without another event |
| RefreshLoop.LoopProgresses | ovn.go:665-711 | A loop that is not at rest has a step of its own to take |
| RefreshLoop.LoopQuiesces | ovn.go:657-711 | Once events stop the loop comes to rest within 19 steps and 3 refreshes |
| RefreshLoop.QuietMeansCaughtUp | ovn.go:657-711 | At rest every event has been read, every refresh notified and every published state reconciled |
| RefreshLoop.QuietLoopCurrentExactly | ovn.go:657-711 | In every schedule the loop at rest has reconciled a state that covers every event if and only if some refresh started after the last event did not fail |
| RefreshLoop.RestUntilNextEvent | ovn.go:665-711 | At rest only an event changes what is published; the periodic reconciliation does not refresh |
| RefreshLoop.FailedRefreshIsNotRetried | ovn.go:422-430 | The failing schedule: one failed refresh and the loop rests on a state that misses the event |
| RefreshLoop.RefreshLoop.DebounceStateRefresh | ovn.go:716-725 | The capacity-1 channel is full afterwards, whatever it held |
| RefreshLoop.RefreshLoop.ImmediateStateRefresh | ovn.go:732-741 | The same for the immediate channel |
| RefreshLoop.RefreshLoop.Turn | ovn.go:665-711 | One turn of the select is one enabled arm of the transition system |
| RefreshLoop.RefreshLoop.Run | ovn.go:657-711 | A run of the loop is a play of the transition system |
| ContentKeys.ContentKeyDecides | ovn_cache.go:98-100 | Keys of fields without the separator are equal exactly when the fields are |
| ContentKeys.SortedJoinDecides | ovn_cache.go:105-109 | Joins of comma-free non-empty members are equal exactly when the lists are permutations |
| ContentKeys.SortedUnique | ovn_cache.go:105-109 | Two sorted permutations are the same list |
| ContentKeys.JoinInjective | ovn_cache.go:98-109 | Joining separator-free parts is injective |
| OvnTables.OvsSetToStrings | ovn_cache.go:352-374 | The decoder flattens either encoding of a set |
| OvnTables.DecodeInvertsEncode | ovn_cache.go:330-374 | Decoding inverts both set encodings of section 5.1 of RFC 7047, and those of an optional column |
| CacheGuard.PortBindingKeyDecides | ovn_cache.go:58-64 | Equal keys exactly for equal UUID, type and chassis and permuted nat_addresses |
| CacheGuard.ChassisKeyDecides | ovn_cache.go:66-68 | Equal keys exactly for equal UUID and hostname |
| CacheGuard.RouterKeyDecides | ovn_cache.go:70-72 | Equal keys exactly for equal UUID and permuted ports, nat and static_routes |
| CacheGuard.RouterPortKeyDecides | ovn_cache.go:74-76 | Equal keys exactly for equal UUID and MAC and permuted networks |
| CacheGuard.NatKeyDecides | ovn_cache.go:78-80 | Equal keys exactly for equal rows |
| CacheGuard.KeySet | ovn_cache.go:182-199 | The keys of exactly the listed rows |
| CacheGuard.KeySetsEqual | ovn_cache.go:226-236 | Equal sizes and one inclusion decide equality of the sets |
| CacheGuard.AuthoritativeList | ovn_cache.go:137-177 | The cache when the check or the full select fails or the keys are the server's, and the server rows when the keys differ and both succeed |
| CacheGuard.GuardIsTransparent | ovn_cache.go:125-177 | When both selects succeed the guarded list has the server's rows up to the order of set columns |
| CacheGuard.EqualKeysPairRows | ovn_cache.go:226-236 | With unique keys equal key sets pair the rows one to one |
| CacheGuard.UniqueIdsPairRows | ovn_cache.go:226-236 | With unique UUIDs and a key that fixes the UUID equal key sets pair the rows one to one |
| CacheGuard.PortBindingRowsPair | ovn_cache.go:58-64 | So they do for the port bindings of two tables with unique UUIDs |
| CacheGuard.RouterRowsPair | ovn_cache.go:70-72 | And for the routers |
| CacheGuard.RouterPortRowsPair | ovn_cache.go:74-76 | And for the router ports |
| StateRefresh.HostNames | ovn.go:441-447 | Hostnames by UUID and by name, and the set of all of them |
| StateRefresh.LocalLrps | ovn.go:451-468 | The ports bound here, by LRP name, under the gateway_port restriction |
| StateRefresh.IndexPorts | ovn.go:476-483 | The three router-port maps hold exactly what the rows carry |
| StateRefresh.LocalPortUuids | ovn.go:486-491 | The UUIDs of the local LRPs that have a row |
| StateRefresh.MatchPort | ovn.go:508-514 | The first listed port that is local |
| StateRefresh.FindLocalRouters | ovn.go:503-532 | The routers that own a local port, and the MAC for each of their NATs when it is not empty |
| StateRefresh.DiscoverNetworks | ovn.go:535-545 | Exactly the networks that parse from the local ports |
| StateRefresh.UniqueNetworks | ovn.go:868-882 | The same networks without duplicates, strictly sorted by their text |
| StateRefresh.CollectNats | ovn.go:559-584 | The NAT addresses by kind and owner, inside the filters |
| StateRefresh.ParseNatAddressIps | ovn.go:886-901 | In order, exactly the fields after the first that parse as an address and have no is_chassis_resident field at or before them |
| StateRefresh.AddAddresses | ovn.go:608-624 | One gateway port adds exactly its admitted addresses and their MAC |
| StateRefresh.CollectPatchAddresses | ovn.go:592-625 | Exactly the admitted addresses of gateway patch ports whose peer is local are added |
| StateRefresh.PassesExactly | ovn.go:549-577 | An IPv4 address passes the filters when there are none or it lies in the block of one, exactly when the routes to it are managed; a text that is no address passes only without filters |
| JoinProofs.OvnClient.RefreshState | ovn.go:422-637 | One failed list leaves the published state unchanged; otherwise it is exactly the declarative join of the tables |
| JoinProofs.InfosAreTheJoin | ovn.go:503-522 | The local routers are exactly the routers owning a port whose chassisredirect port is bound here |
| JoinProofs.NatsAreTheJoin | ovn.go:568-584 | The floating and SNAT addresses are exactly those the join gives |
| JoinProofs.PatchesAreTheJoin | ovn.go:586-625 | The same for the addresses of gateway patch ports |
| JoinProofs.DiscoveredIsTheJoin | ovn.go:534-546 | The same for the discovered networks |
| JoinProofs.PassesIsAdmitted | ovn.go:549-577 | The filter test is the declarative one: no filter admits all, configured networks come before discovered ones, and a network covers addresses of its own family only |
| CacheTransparency.JoinDeterminesState | ovn.go:422-627 | Rows without doubly owned addresses determine the published state, the order of the networks included |
| CacheTransparency.GuardedReadIsServer | ovn_cache.go:116-199 | Five guarded reads give the server's abstract rows whatever the cache lost or kept stale in checked columns |
| CacheTransparency.CacheIsTransparent | ovn_cache.go:116-199 | A refresh over the guarded cache publishes the state of a refresh over the server |
| StaleChassis.HandedExactlyAfterGrace | agent.go:397-464 | A scan hands a chassis to the cleanup if and only if it is missed now and without interruption since a scan at least the grace period ago |
| StaleChassis.GraceIsHonoured | agent.go:394-396 | Every successful scan over at least grace plus jitter saw a handed chassis referenced and absent |
| StaleChassis.TrackedExactly | agent.go:410-435 | The tracker holds exactly the chassis missed without interruption, each with its earliest such scan |
| StaleChassis.DomainIsLastScan | agent.go:410-464 | The tracker's domain is what the last successful scan missed, less what it cleaned up |
| StaleChassis.ReturnResetsGrace | agent.go:411-418 | A scan that sees the chassis again, or sees it unreferenced, restarts the whole grace period |
| StaleChassis.PresentIsNeverHanded | agent.go:411-427 | A chassis in the southbound database is never handed over |
| StaleChassis.StaleTracker.FindStale | agent.go:397-450 | One scan up to the cleanup |
| StaleChassis.StaleTracker.CleanupStaleChassis | agent.go:397-464 | One scan is one step of the run; a grace period of 0 disables it |
| StaleChassis.StaleTracker.Run | agent.go:397-464 | A sequence of scans hands over what the specification of the run says |
| NorthboundEntries.OvnNorthbound.EnsureDefaultRoute | ovn_gateway.go:227-345 | A foreign default route stays as it is, a managed one is claimed, one is created only if none is in view; a write happens exactly when something changes; without failed transactions it succeeds exactly when the router exists and its row is in view, and it writes nothing when every visible default route is settled; field by field, a managed route is tagged for this chassis and, if its nexthop changes, leaves through this router's port |
| NorthboundEntries.OvnNorthbound.EnsureStaticMacBinding | ovn_gateway.go:349-390 | The binding of the port and address has the MAC, updated in place when the cache shows it; when the cache hides it the insert is rejected, and without other failures that is the only way to fail; a write happens exactly when something changes |
| NorthboundEntries.OvnNorthbound.EnsureGatewayRouting | ovn_gateway.go:67-85 | Every router reported done is ready, also after the ensures of the others; without failed transactions every router is done that exists, has a usable network, and of which the cache hides neither the row nor the binding; a pass in which every visible default route is settled and every binding in place writes nothing; no row disappears, and a route changes or appears only as a managed one of this chassis; in any case no more reachable routers are left undone than transactions failed |
| NorthboundEntries.OvnNorthbound.EnsureGateway | ovn_gateway.go:67-85 | One router: done means ready, the other routers keep what they have, without failures a reachable router is done, and a quiet one costs no write |
| NorthboundEntries.OvnNorthbound.RemoveManagedNBEntries | ovn_gateway.go:395-495 | No local routers, no write; otherwise only managed routes of local routers and bindings of local ports go, and no more of them stay than transactions failed |
| NorthboundEntries.OvnNorthbound.LocalOwner | ovn_gateway.go:432-443 | The local router that lists the route, if there is one |
| NorthboundEntries.OvnNorthbound.StaleRoutes | ovn_gateway.go:541-565 | Route owners by UUID, and exactly the ports a live chassis still uses |
| NorthboundEntries.OvnNorthbound.DeleteStaleRoutes | ovn_gateway.go:567-626 | Only stale routes go, no more of them stay than deletes failed, and the noted keys are exactly those of the condemned bindings |
| NorthboundEntries.OvnNorthbound.CleanupStaleChassisManagedEntries | ovn_gateway.go:529-653 | Only managed routes of stale chassis and the bindings they condemn go, and unless a needed read fails no more of them stay than transactions failed |
| NorthboundEntries.EnsuredRouteSurvives | ovn_gateway.go:567-582 | A default route ready for a chassis that is not stale survives the cleanup unchanged |
| NorthboundEntries.BindingsOfLivePortSurvive | ovn_gateway.go:556-594 | No binding on the port of a managed route of a live chassis is deleted |
| NorthboundOwnership.BindingLostExactly | ovn_gateway.go:586-650 | A binding is deleted exactly when a stale route condemned it and its port is not live |
| NorthboundOwnership.ForeignDefaultLosesBinding | ovn_gateway.go:254-266 | Next to a foreign default route the binding just ensured can be cleaned up as a dead chassis's |
| NorthboundOwnership.RepeatedEnsureChangesNothing | ovn_gateway.go:268-289 | A further ensure that sees the router and the route of the first writes nothing under every listing order if and only if every other visible default route of the router is settled |
| NorthboundOwnership.QuietExactly | ovn_gateway.go:254-330 | An ensure writes nothing under every listing order if and only if its router is not in view, or it sees a default route and every one it sees is settled |
| NorthboundOwnership.RepeatedBindingChangesNothing | ovn_gateway.go:355-360 | The same for the MAC binding |
| NorthboundOwnership.DuplicateExactlyWhenHidden | ovn_gateway.go:227-267 | A second default route appears exactly when the cache hides every one the router has |
| NorthboundOwnership.FailoverOnlyRetags | ovn_gateway.go:268-287 | With an unchanged subnet the takeover chassis changes only the chassis tag of the managed route |
| NorthboundOwnership.ShutdownLeavesOthers | ovn_gateway.go:392-495 | A shutdown leaves unmanaged routes, other routers and other ports' bindings untouched |
| ReconcileCycle.ListManagedRouteChassis | ovn_gateway.go:499-515 | The chassis tags of exactly the routes marked as the agents' own, empty tags aside |
| ReconcileCycle.CleanupStaleChassis | agent.go:397-464 | One scan over the routes as they are: the tracker takes one step of its run, only rows of the chassis handed over go, and unless a needed read fails no more of their rows stay than deletes failed; they are forgotten exactly when the reads succeed |
| ReconcileCycle.Reconcile | agent.go:325-391 | What a cycle has ensured survives its own cleanup; no more reachable routers are left undone than transactions failed; its effect on the database and the tracker is one cycle of the runs below, a clean one when reads and transactions succeed |
| NorthboundRuns.RouteLostOnly | ovn_gateway.go:395-653 | In any step of any run a managed route is lost only with the shutdown of an agent of its router, or in a cycle whose scan misses its chassis and hands it over |
| NorthboundRuns.LiveRoutesSurvive | agent.go:373-391 | However cycles, restarts and shutdowns of any number of agents interleave, a managed route of a chassis that every scan sees stays, managed by such a chassis, until an agent of its router shuts down |
| NorthboundRuns.TrackerIsOwnScans | agent.go:397-464 | Each tracker holds exactly what its own agent's scans since its start put there |
| NorthboundRuns.LostAfterGraceOnly | agent.go:394-464 | A managed route lost otherwise belonged to a chassis that every successful scan of the deleting agent had seen referenced and absent for at least grace plus jitter |
| NorthboundRuns.DeadRoutesGo | agent.go:397-464 | The counterpart: after a clean cycle of an agent that has missed a chassis without interruption for grace plus jitter, no router lists a managed route of that chassis |
| NorthboundRuns.ClaimedAfterReadIsLost | ovn_gateway.go:567-626 | The failing input below the level of cycles: a route claimed between the reading of a cleanup and its delete by UUID is deleted under its new owner |
| Shutdown.CountLocalCrPorts | ovn_gateway.go:941-978 | The number of port-binding rows of tracked chassisredirect ports whose chassis row names this host, under case folding |
| Shutdown.CountIsZeroExactly | ovn_gateway.go:962-977 | The count is zero exactly when no tracked port is bound here |
| Shutdown.NothingBoundNothingLocal | ovn_gateway.go:941-978 | A count of zero means the next refresh of the same rows has no local router |
| Shutdown.DrainedShutdown | agent.go:181-211 | After a drain that reached zero, the refresh and cleanup of the shutdown write nothing to the northbound database; in any case the published state is the join, only managed rows of its routers and ports go, and without failures all of them |
| Shutdown.SelectCrPortChassis | ovn_gateway.go:986-1026 | The chassis of every bound chassisredirect port, from the server rows |
| Shutdown.LocalPortIsBoundHere | ovn_gateway.go:183-196 | For a state refreshed from the same rows the check before a boost never refuses |
| PortForwardConfig.ValidateAddrs | config.go:544-562 | Accepts exactly 1 to 256 distinct IPv4 backends, and a rejection names a real offence |
| PortForwardConfig.ValidateRules | config.go:522-567 | Accepts exactly the rule lists with distinct keys whose rules are all good, and a rejection names a real offence |
| PortForwardConfig.ValidatePortForwards | config.go:506-569 | Accepts exactly the good configurations; every error points at an offending VIP or rule |
| NftCompiler.BuildNftRuleset | nftables.go:52-370 | The nested loops emit exactly the specified chains |
| NftCompiler.WriteCtZoneRules | nftables.go:56-75 | The zone rules of every VIP, rule and backend |
| NftCompiler.WriteDnatRules | nftables.go:183-216 | One DNAT rule for each VIP and rule, direct or by hash |
| NftCompiler.CollectSnatEntries | nftables.go:94-119 | One masquerade rule for each backend of each masquerading rule |
| NftCompiler.WriteSnatChain | nftables.go:321-366 | The SNAT chain, or none when none of its three parts has a rule |
| NftCompiler.CompactSorted | nftables.go:351-353 | The sorted SNAT addresses without repetitions |
| NftCorrectness.DnatIsLookup | nftables.go:183-216 | On every packet the first-match result of the DNAT chain is the configuration's lookup by operand text: the hashed backend at the configured or defaulted port, and nothing when no entry serves it |
| NftLoad.LoadsExactly | nftables_linux.go:286-310 | The ruleset of an accepted configuration loads if and only if every VIP and backend is a dotted quad, every provider network is IPv4 and, with router masquerading, every SNAT address is a dotted quad |
| AddressText.QuadExactly | nftables_linux.go:286-310 | What nft reads as an IPv4 operand, a dotted quad, is four decimal numbers below 256 with dots between |
| NftTable.PortForwardTable.ApplyNftRuleset | nftables_linux.go:286-310 | Replaces the table by the compiled one exactly when nft runs and can read every operand, and leaves it otherwise |
| NftTable.PortForwardTable.SetupPortForward | nftables_linux.go:23-69 | Succeeds exactly when its other steps do, nft runs, and every VIP and backend is a dotted quad |
| NftTable.PortForwardTable.ReconcilePortForward | nftables_linux.go:76-96 | One reload of the specification of the run |
| NftTable.PortForwardTable.Run | agent.go:134-136 | The agent runs only after a set-up that succeeded, and then the table is that of the specification of the run |
| NftTable.LastTakenIsInPlace | nftables_linux.go:286-310 | After any reloads the table is that of the last one nft took, or of the set-up if it took none |
| NftTable.OnlyGuardAndSnatChange | nftables.go:219-366 | Whatever the reloads bring, the zone, DNAT, mark and clearing chains stay those of the set-up |
| NftTable.ChainsCurrentExactly | agent.go:366-370 | After a reload with which nft ran, guard and SNAT chain are those of this reload if and only if its provider networks are IPv4 and, with router masquerading, its SNAT addresses are dotted quads |
| NftTable.EntriesStayServed | nftables_linux.go:71-96 | Once the set-up has loaded, through any reloads and failures, every packet meant for an entry is sent where the entry says |
| NftTable.SetupLoadsExactly | nftables_linux.go:45-48 | The set-up's ruleset loads if and only if every VIP and backend is a dotted quad |
| NftTable.DualStackStopsTheReloads | nftables.go:276-283 | The failing input: with one IPv4 and one IPv6 provider network no reload is taken, and the set-up's guard goes on dropping the return traffic every reload meant to accept |
| NftLoad.MappedVipStopsTheLoad | config.go:508-517 | The failing input: one VIP as an IPv4-mapped text is accepted, and no ruleset of the configuration loads, the set-up's included |
| NftTable.QuadVipsAreApart | config.go:515-517 | Validation compares VIPs as texts; for dotted quads that is comparing addresses, so no entry shadows another |
| NftCorrectness.BackendIsSticky | nftables.go:197-202 | Flows of one entry from one source reach one backend |
| NftCorrectness.OrderIsIrrelevant | nftables.go:186-187 | Permuting VIPs and rules changes no translation |
| NftCorrectness.ZoneExactly | nftables.go:56-75 | A packet gets the zone exactly when it goes to a forwarded port or comes from a backend of one |
| NftCorrectness.RepliesShareZone | nftables.go:29-40 | A packet and every reply of the backend it is sent to share the zone, on both reply paths |
| NftCorrectness.SnatDecisionExactly | nftables.go:325-366 | A packet is masqueraded exactly in the three documented cases, however the SNAT addresses are sorted and whether the chain is emitted |
| NftCorrectness.SettingIsHonouredExactly | nftables.go:94-119 | A rule's packets are masqueraded exactly when the rule says so or another masquerading rule shares its backend, protocol and port |
| NftCorrectness.OptOutIsOverridden | nftables.go:85-92 | An accepted configuration in which a rule that opts out of masquerading is masqueraded |
| NftCorrectness.SnatIpsAreASet | nftables.go:351-353 | The ruleset depends on the SNAT addresses only as a set |
| NftCorrectness.MarksExactly | nftables.go:219-270 | Exactly the translated flows of configured VIPs are marked, each direction with its own mark |
| NftCorrectness.GuardDecides | nftables.go:272-292 | The guard drops exactly what leaves through the veth without a provider source and without the reply mark |
| NftCorrectness.RequestNeedsProvider | nftables.go:219-292 | The request of a forwarded flow carries the other mark and leaves through the veth only from a provider network |
| NftCorrectness.ReplyCrossesVeth | nftables.go:219-303 | A reply of a forwarded flow, marked on either path, passes the guard and leaves unmarked |
| PrefixList.FrrPrefixList.Reconcile | routing.go:361-422 | After success every desired network is listed, new sequence numbers are distinct and above all managed ones, foreign lines survive unless a new entry took their number; at every intermediate state nothing wanted is missing that was there; a converged list is left alone; it ends in an error exactly when the list cannot be read or a command fails |
| PrefixList.FrrPrefixList.ListEntries | routing.go:375-384 | The managed networks with a sequence number each, and the greatest one |
| PrefixList.FrrPrefixList.AddMissing | routing.go:391-405 | Exactly the missing networks are added, five apart, with no gap at any state |
| PrefixList.FrrPrefixList.RemoveStale | routing.go:407-420 | Exactly the stale entries known go, with every desired network listed throughout |
| PrefixList.FinishedIsConverged | routing.go:361-422 | One pass ends with only desired networks if and only if no other network was listed twice, and with single entries if and only if no desired one was |
| PrefixList.SecondEntryStays | routing.go:377-384 | The failing input: of two entries for an undesired network the pass knows one, and the other stays |
| VethLeak.VethLeakManager.ReconcileVethLeakNetworks | routing_linux.go:574-724 | After a clean pass routes and rules are both exactly the desired networks, however they had drifted apart; no intermediate state has a gap; foreign routes of undesired networks and other rules stay; a desired IPv6 network ends every pass before a rule is added or anything stale removed; any other error comes from a failed call, and no more stale routes and rules stay than calls failed |
| VethLeak.VethLeakManager.AddRoutes | routing_linux.go:633-648 | Missing routes are installed, the first failure ends the pass |
| VethLeak.VethLeakManager.AddRules | routing_linux.go:650-668 | Missing rules are installed, an existing one is no failure |
| VethLeak.VethLeakManager.RemoveRoutes | routing_linux.go:670-693 | Recognised routes of undesired networks go, failures are only logged, and no more routes stay than calls failed |
| VethLeak.VethLeakManager.RemoveRules | routing_linux.go:695-721 | Orphaned rules of this table and priority go, nothing else, and no more stay than calls failed |
| VethLeak.OldNexthopRoutesStay | routing_linux.go:606-618 | Routes installed through an earlier nexthop are not recognised: the agent's routes end as desired exactly when no such route of an undesired network was there |
| VethLeak.OneOldRouteStays | routing_linux.go:606-618 | The failing input: one route through an earlier nexthop and nothing desired, and every clean pass leaves it |
| Ipv4.VirtualGatewayIp | ovn_gateway.go:41-61 | The last usable address of the first IPv4 subnet up to prefix 31, or an error when there is none |
| Ipv4.ComputedWordIsLast | ovn_gateway.go:51-56 | The 32-bit computation, wrap at prefix 0 included, does not underflow and gives broadcast minus one |
| Ipv4.HostBitsAreBlock | ovn_gateway.go:53-53 | The shifted mask is the block size minus one also where the shift overflows |
| Ipv4.LastUsableIsNetworkOnlyAt31 | ovn_gateway.go:41-61 | Up to prefix 30 the gateway is neither network nor broadcast address; at 31 it is the network address |
| Ipv4.LastUsableUnique | ovn_gateway.go:41-61 | The gateway depends only on the subnet |
| Ipv4.NextIp | config.go:578-592 | The carry loop over four octets is plus one modulo 2^32 |

## Left out

- RouteReconcile.RouteAgent.EnsureRoutes: models IPv4 addresses, and `route_table_id` 0, where adding a kernel route is install-or-no-change; the policy rule and its rollback for a separate table are not part of this model.
- GatewayPriority.OvnNorthbound.EnsureActivePriorityLead: the read of the port bindings and the write are one step, and rows in the cache have their current values (lost rows are modelled, stale priorities are not).
- FailoverProtocol.PrioritiesDoNotRatchet: the schema's upper bound 32767 on priorities is not modelled.
- FailoverProtocol.NoReverseFailover: assumes that the read of the port bindings succeeds, as the degraded path trusts the snapshot.
- CacheTransparency.CacheIsTransparent: requires the columns the check does not select to agree between cache and server for equal UUIDs, and no address owned through two router ports.
- JoinProofs.OvnClient.RefreshState: requires chassis references, port names and UUIDs to be unique and at most one local port per router; the order of routers and addresses in the published lists follows the row order of the cache and is not stated.
- ReconcileCycle.Reconcile: models the northbound part of a cycle; the guarded reads of static routes and bindings return the server's rows, and the content keys of these two tables are not modelled (the static-route key renders a map with `%v`).
- NorthboundEntries.OvnNorthbound.EnsureGatewayRouting: the UUIDs of new rows are any unused ones, and the unguarded cache lists may have lost rows but have no outdated ones; the local routers and their ports are distinct and a static route belongs to one router.
- PrefixList.FrrPrefixList.Reconcile: sequence numbers have no upper bound.
- NorthboundRuns.LiveRoutesSurvive: a cycle is one step, although its reads and deletes are separate transactions; ClaimedAfterReadIsLost shows what finer interleaving does.
- VethLeak.VethLeakManager.ReconcileVethLeakNetworks: the nexthop is IPv4, and that netlink refuses a destination of the other family is taken from that library; one route per destination in the table; a stale route whose text does not parse back cannot occur.
- NftCorrectness.DnatIsLookup: states first match within one chain; conntrack, VRF traversal and the text of the ruleset around its operands are not part of this model.
- NftLoad.LoadsExactly: that an address or network operand of a `table ip` chain has to be IPv4 is taken from nft's grammar, as is that overlapping networks of one set are merged; reasons for a failed load outside the operands are one flag.
- PortForwardConfig.ValidatePortForwards: covers VIPs and rules, not the scalar checks of table numbers, zone and device name.
- NftTable.PortForwardTable.Run: the teardown of the table on shutdown is not part of this model.
- RefreshLoop.NoEventLost: starts with the loop; the startup window in which queued signals are drained, the shutdown arm and a nil callback are not part of this model.
- The desired addresses of a cycle are an input to RouteReconcile; collecting them from the published state (`reconcile`, `uniqueIPs`) is a union of its fields.
- Set- and map-valued columns and the order in which Go ranges over maps are nondeterministic choices.
- Process execution, parsing of tool output, libovsdb connections, metrics, logging, dry-run, configuration layers, OVS flows, and FRR's report of inactive routes would only add easy members or I/O.
