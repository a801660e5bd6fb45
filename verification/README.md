# wg-busy: routing, configuration and control-plane model

wg-busy turns a WireGuard peer configuration into Linux policy routing and firewall state, moves the
live kernel from one configuration to the next, and runs BGP and ZeroTier next to it. This project
models that behaviour in Dafny and proves what it keeps.

**Routing and filtering.** `Kernel` is an explicit kernel: rule databases by family and priority, route
tables, and firewall chains with prepend, append, check, delete and flush, together with the lookup of
a packet through both. `IpRules`, `StrictChains`, `GatewayChains` and `Routes` hold the loops that emit
commands from a configuration, each proved equal to a specification, and `Generators` puts the command
lists together. `Reconcile` issues the commands one by one against a kernel in which every command may be
carried out, be refused, be half done, or take effect and report a failure. On top of that: `FailClosed` and
`Bypass` (what is rejected while a transition is under way, and the exact reach of the guards), `Guards` and
`LeftoverGuard` (conservation of the temporary guards), `Effects`, `Convergence` and `FaultFree` (exact
convergence and composition), `Foreign` (the administrator's rules stay in every state of every run), `Hooks` (bringing the interface up and down), `Confinement` and `Agreement` (strict peers never
leave their block, and routing and filtering agree), `Success` (what a report of success is worth when
tolerated commands have failed), `Leftovers` and `StaleRoute` (what it can leave behind, exactly, and when routing and
filtering then agree), `Uplinks` (assignments to a VPN gateway never fall through to `main`), `Evaluation` (where a
packet goes, table by table, through all the rules) and `Contents` (what each command list holds, entry by entry).

**Configuration.** `Store` is the transactional store over memory, YAML file, applied routing state and
restart flag; it drives the kernel through `Reconcile`. `StatsFlag` says when its dirty flag is exact.
`Wireguard` decides which edits need a restart. `Tables` allocates routing tables and keeps them apart over all edits.

**Control plane.** `Filters` and `Bgp` are the filter chains and the withdraw, re-filter, install protocol.
`Supervisor` and `Revision` are the ZeroTier supervisor as a state machine over its locked sections, and its
change notification.

**Algorithms.** `Network` (gateway resolution), `Ipam`, `Cbor` with `ByteStrings`, and `Traffic`. `Lists` and
`Runs` are shared helpers.

Addresses, prefixes and configured filters start as parsed values. Calls into the system are modelled by
their outcome: every shell command, save, render, daemon call and process start may succeed or fail, and
the theorems quantify over all outcomes.

Where code and documentation differ the code is followed. The routing code's comments describe the guards
as holding through the whole transition; from the moment step 4 has inserted the gateway jump, its accepts
stand above them (`Bypass.GuardReachIsExact` says exactly what is then still rejected). A successful Reconcile can
leave a guard behind, because a failed deletion of a guard is not an error (`Guards.GuardConservation` has the exact
condition, `LeftoverGuard` the input). It can also leave routes of the previous configuration in a strict peer's table,
or an old rule in front of a new one in its slot; `Leftovers.LeftoversExact` has the exact condition, and on the input
in `StaleRoute` the rules then route a packet that the strict chain rejects. The Store's dirty flag is documented
as "changes occurred"; it can be set while file and memory are equal (`ConfigStore.DirtyButCurrent`), but not while counters rise
(`StatsFlag.FlagRightForever`). A BGP session the configuration opts out can still be sent local prefixes after its
replacement failed (`Bgp.OptOutExact` has the exact condition, `Bgp.OptOutReverted` the run). The table allocator can
hand out the kernel's own tables (`Uplinks.ReservedTableAssigned`). The broadcast address of a pool in IPv4-mapped
notation is not excluded from allocation (`Ipam.BroadcastKept`).
Traffic totals of a peer that leaves the dump and returns are kept for sent bytes only
(`Traffic.VanishingForgetsReceived`).

## Model

| member | source | states |
|---|---|---|
| Network.ResolveGateway | internal/models/models.go:397-430 | the one-pass scan returns what the longest matching networks say: a device if and only if there are longest matches and all are on that device, ambiguous if and only if two of them differ in device, unresolved if and only if nothing matches |
| Network.ResolveIsExact | internal/models/models.go:397-430 | each of the three outcomes is returned exactly when its order-free description holds |
| Network.ResolveIgnoresOrder | internal/models/models.go:397-430 | lists with the same networks, in any order and with any repetition, resolve alike |
| Models.PeerSources | internal/models/models.go:1056-1075 | the deduplicating loop collects the distinct source selectors of AllowedIPs in order |
| Models.SourcesCoverAllowedIPs | internal/models/models.go:1056-1075 | an address lies in some source selector exactly if AllowedIPs covers it, and no selector repeats |
| Models.EnabledExitNodes | internal/routing/routing.go:733-743 | the loop builds the map of enabled exit nodes that have a table, the last of equal IDs winning |
| Models.ExitNodesSound | internal/routing/routing.go:733-743 | every entry of that map is an enabled exit node of the configuration, filed under its own ID |
| Models.ExitNodesExact | internal/routing/routing.go:733-743 | an ID is in that map exactly if some peer with it is an enabled exit node with a table, and the entry is the last such peer |
| Models.GatewayInterfacesExact | internal/routing/routing.go:503-512 | likewise for the map of gateways that have an interface |
| IpRules.GeneratePeerRules | internal/routing/routing.go:64-106 | the nested loops with the running priority counter emit the peer block: consecutive priorities from 10000, per source the exit lookup, the policy lookup and for strict peers the prohibit; Evaluation.PeerLookups says what the block does to a packet |
| IpRules.GenerateDeviceRules | internal/routing/routing.go:549-591 | device rules: for each enabled rule with a usable gateway a lookup and a prohibit at consecutive priorities from 16000 |
| IpRules.GenerateLocalRules | internal/routing/routing.go:442-492 | LAN bypass rules of peers and then of devices at consecutive priorities from 17000, skipping host sources and family mismatches |
| IpRules.GenerateGatewayRules | internal/routing/routing.go:517-542 | gateway rules of whole peers, lookup then prohibit per source, at consecutive priorities from 18000 |
| Evaluation.PeerLookups | internal/routing/routing.go:64-106 | the installed peer block on a packet whose source no other enabled peer is authorized for: routed in the table of the peer's enabled exit node if that has a route for the destination; else in its policy table if that has one; else prohibited exactly if the peer is strict, and passed on to the device rules if not |
| Evaluation.DeviceLookups | internal/routing/routing.go:549-591 | the device rules on an address whose entries agree: main if direct, the table of a usable gateway or else a prohibit if not, and every other address is passed on to the LAN bypass |
| Evaluation.LanLookups | internal/routing/routing.go:442-492 | the LAN bypass routes a packet in main exactly if main has a route, its destination is on the LAN list in its own family, and its source is in a network of an enabled peer or has an enabled device entry; every other packet is passed on to the gateway rules |
| Evaluation.GatewayLookups | internal/routing/routing.go:517-542 | the gateway rules on such a packet: the table of the enabled gateway the peer is assigned to, prohibited if that has no route, and passed on to main exactly if there is no such gateway |
| Evaluation.WhereItGoes | internal/routing/routing.go:64-106 | all blocks together, from priority 1: exit node, policy routes, prohibit if strict, LAN through main, gateway or prohibit, and only then the kernel's own rules |
| StrictChains.GenerateStrictEgress | internal/routing/routing.go:124-198 | per strict source the exit-node allowances, the resolved policy allowances and then the reject, in that order |
| StrictChains.StrictEgressShape | internal/routing/routing.go:124-198 | a strict chain can only return or reject: it holds no accept |
| GatewayChains.GenerateGatewayUp | internal/routing/routing.go:637-717 | the gateway chains are created, flushed and hooked in, then filled with the LAN and uplink rules |
| GatewayChains.GatewayAppendsShape | internal/routing/routing.go:637-717 | everything after the initialisation appends to one of the three gateway chains |
| Contents.GatewayAppendsExact | internal/routing/routing.go:649-717 | a command is among the appended ones exactly if it grants an enabled IPv4 source its LAN destinations, or an assigned source of a peer or device its uplink: out through the gateway's interface, replies back to wg0, and for IPv4 the masquerade on that interface |
| Contents.GatewayInitExact | internal/routing/routing.go:637-647 | each gateway chain is flushed and entered: from FORWARD for what comes from wg0, from POSTROUTING for everything |
| Contents.ZeroTierUpExact | internal/routing/routing.go:320-356 | ZeroTier's masquerade is there exactly if it is enabled and not switched off, and the advertised prefixes are exempted in front of it exactly if asked for |
| Routes.GenerateExitRoutes | internal/routing/routing.go:745-778 | each exit table is filled once, by the first node in iteration order that owns it |
| Routes.GenerateGatewayRoutes | internal/routing/routing.go:593-631 | default routes of the gateways that have an interface and a table, per family their AllowedIPs ask for |
| Routes.GeneratePolicyRoutes | internal/routing/routing.go:781-802 | policy routes of enabled peers; an unresolved gateway of a strict peer yields a deletion instead of a route |
| Contents.ExitRoutesExact | internal/routing/routing.go:745-778 | the exit commands are exactly, for every exit node of the map, the default routes of both families or the listed destinations, over wg0 and in its own table |
| Contents.GatewayRoutesExact | internal/routing/routing.go:593-631 | the gateway commands are exactly the default routes asked for, out of each gateway's own interface in its own table |
| Contents.PolicyRoutesExact | internal/routing/routing.go:781-802 | the policy commands are exactly the policy routes of enabled peers with a table and sources, over the device the gateway resolves to, over wg0 if it does not and the peer is not strict, and none if it is |
| StrictChains.StrictPeerSources | internal/routing/routing.go:249-264 | the distinct sources of enabled strict peers, in order of first appearance |
| Contents.AffectedExact | internal/routing/routing.go:249-276 | the sources a transition guards are, each once, those of the peers enabled and strict before it or after it |
| FailClosed.FailClosedTransition | internal/routing/routing.go:885-968 | for any two configurations and any schedule of commands that are refused, half done or done but reported as failed: once step 1 has succeeded, in every state of steps 2 to 4, the state left by an error included, every packet from wg0 of a source strict in either configuration that matches no accept of the next gateway chain is rejected in FORWARD |
| FailClosed.ShieldRejects | internal/routing/routing.go:278-305 | a chain in which only rules of the application can stand above a guard rejects every protected packet of the guarded source, whatever foreign rules follow |
| FailClosed.GuardsShield | internal/routing/routing.go:278-305 | step 1 puts a guard of every affected source in front of whatever FORWARD held |
| Bypass.GuardReachIsExact | internal/routing/routing.go:885-958 | a fault-free Reconcile that started with at most one gateway jump in FORWARD comes to the end of step 4 with every guarded packet rejected if it matches no accept rule the next gateway chain emits, and accepted if it matches one: exactly how far the guards reach once the gateway jump stands above them |
| Bypass.LanPassesGuards | internal/routing/routing.go:885-958 | so at that point of such a run a packet of a strict IPv4 source to a LAN destination is accepted although its guard is still there |
| Bypass.LanIsAccepted | internal/routing/routing.go:637-717 | LAN destinations of every enabled IPv4 source, strict or not, are among those accepts |
| Guards.GuardConservation | internal/routing/routing.go:266-305 | no run of Reconcile, whatever fails, lowers the number of copies of any guard, none raises it by more than one, and only affected sources can gain one; a successful run leaves the number of an affected source's guard as it was if and only if that guard's own deletion in step 5 takes effect, whatever tolerated commands failed before |
| Guards.GuardLeftBehind | internal/routing/routing.go:293-303 | a successful run ends with one copy more of an affected source's guard if and only if its own deletion had no effect |
| FaultFreeRuns.RefusedDeletionLeavesGuard | internal/routing/routing.go:960-967 | whenever everything up to step 5 runs and the deletion of one guard is refused, Reconcile reports success and that guard is left behind |
| LeftoverGuard.SuccessLeavesGuard | internal/routing/routing.go:885-968 | a concrete transition, one strict peer on an empty host, at which success leaves a guard |
| Guards.SaneForever | internal/routing/routing.go:201-247 | that strict chains hold no accept, the premise of the fail-closed guarantee, is kept by every command of every Reconcile, failed ones included |
| FaultFreeRuns.ReconcileConverges | internal/routing/routing.go:899-958 | from a kernel that holds exactly the managed rules and tables of the previous configuration plus anything foreign, a fault-free Reconcile succeeds and ends with exactly those of the next configuration plus the same foreign entries; the strict chains, the gateway chains and the gateway NAT chain are then exactly the generated ones |
| FaultFreeRuns.ReconcileComposes | internal/routing/routing.go:885-968 | going from a to b and then to c gives the same rules, tables and chains as going from a to c, and c to c changes none of them |
| Convergence.ExitRoutesAnyOrder | internal/routing/routing.go:745-778 | the exit tables do not depend on the order in which the map of exit nodes is iterated |
| Convergence.TeardownEffect | internal/routing/routing.go:899-929 | step 2 removes every rule and route of the previous configuration and nothing foreign |
| Convergence.SetupEffect | internal/routing/routing.go:936-958 | step 4 adds exactly the rules and routes of the next configuration |
| Convergence.AllSlotsDistinct | internal/routing/routing.go:402-403 | within their gaps the four priority blocks share no rule slot |
| ForeignRules.ForeignRulesStay | internal/routing/routing.go:885-968 | in every state of every run, whatever fails, FORWARD and POSTROUTING without the application's own rules are what they were, in the same order |
| Hooks.UpDownRestores | internal/routing/routing.go:982-1022 | PostUp then PostDown from a kernel holding nothing of the application's restores rules, private tables, strict chains, FORWARD and the ZeroTier NAT rules up to the gateway jumps, in whatever orders the maps are iterated |
| Hooks.PostUpTwice | internal/routing/routing.go:817-869 | a second PostUp succeeds and changes no rule, route, managed chain, the gateway NAT chain included, or shared chain |
| Hooks.PostUpEffect | internal/routing/routing.go:817-869 | a fault-free PostUp succeeds, adds exactly the rules and routes of the configuration and fills its chains |
| Generators.GeneratePostUp | internal/routing/routing.go:817-869 | the PostUp list is put together generator by generator in the order Hooks reasons about |
| Generators.GeneratePostDown | internal/routing/routing.go:982-1022 | likewise the PostDown list |
| Confinement.StrictConfinement | internal/routing/routing.go:64-106 | with at most 6000 peer rules, all of them in place, and a peer block in which every rule is a private lookup or a reject, evaluating all rules on a packet of an enabled strict peer ends in the 10000 block, in a private table hit or at a reject, even where peers' sources overlap or rules of an earlier configuration are left over |
| Confinement.BlockIsPrivate | internal/routing/routing.go:64-106 | an installed peer block without reserved tables is such a block, with every rule in place |
| Confinement.ConvergedBlock | internal/routing/routing.go:940-950 | a kernel to which Reconcile has converged has that block installed |
| Agreement.StrictChainIsExact | internal/routing/routing.go:124-198 | for a strict peer and a source address no other enabled peer is authorized to use, the strict chain returns a packet if and only if an exit-node route or a resolved policy route covers its destination on its outgoing device, and rejects it otherwise |
| Agreement.RoutedIsAllowed | internal/routing/routing.go:376-398 | as long as the tables of the peers hold no route but the configuration's own, of which any number may be missing: whatever device rule lookup and longest-prefix table lookup select for such a packet, the strict chain returns the packet on that device |
| Agreement.UnresolvedBlocks | internal/routing/routing.go:376-398 | with the tables so owned, a packet of a strict peer without exit node whose gateways all fail to resolve is prohibited by the rules and rejected by the chain, for every destination |
| Reconcile.Host.ApplyCommands | internal/routing/routing.go:871-883 | the loop stops at the first failing command, having run exactly the prefix before it |
| Reconcile.Host.Reconcile | internal/routing/routing.go:885-968 | nothing happens with wg0 down; otherwise the outcome and the kernel are those of the five-step command sequence under any fault schedule, a failure in steps 2 to 4 leaves every protected packet rejected, and no guard is lost |
| SuccessfulRuns.BlockStaysPrivate | internal/routing/routing.go:899-958 | in every state of every run, whatever fails, the peer block leads to private tables and rejects only |
| SuccessfulRuns.SuccessInstalls | internal/routing/routing.go:936-958 | a Reconcile that reports success has every rule of the new configuration in place, whatever failures tolerated commands swallowed |
| SuccessfulRuns.SuccessConfines | internal/routing/routing.go:885-968 | so after any such Reconcile a packet of an enabled strict peer is decided inside the peer block, at a private table hit or a reject, and the block is as private as before for the next run |
| SuccessfulRuns.SuccessFillsStrict | internal/routing/routing.go:926-929 | and both strict chains hold exactly the rules of the new configuration, with the jump to them in FORWARD |
| SuccessfulRuns.SuccessFilters | internal/routing/routing.go:124-198 | and for a strict peer and an address of its own the strict chain hands a packet back exactly if a route of the peer covers it on its outgoing device, and rejects it otherwise |
| Leftovers.SlotAfterRun | internal/routing/routing.go:899-958 | what a successful run leaves in a rule slot, exactly: the old rule unless its deletion took effect or the slot was cleared when the new rule was set, and behind it the new one |
| Leftovers.TablesExact | internal/routing/routing.go:899-958 | after a successful run the tables of the new configuration's peers hold only its own routes if and only if every other route there was deleted or replaced by a command that took effect |
| Leftovers.BlockExact | internal/routing/routing.go:899-958 | and the peer block is exactly the new one if and only if every old rule was deleted or cleared |
| Leftovers.LeftoversExact | internal/routing/routing.go:885-968 | so the environments under which a successful run leaves nothing of the old configuration in a strict peer's way are exactly those that sweep it |
| Leftovers.StrictGuarantee | internal/routing/routing.go:885-968 | routing and filtering end to end, for every such run from any previous configuration: a packet of a strict peer is decided inside the peer block, and if it is routed the installed strict chain returns it on that device |
| Leftovers.LandedDeletionsSweep | internal/routing/routing.go:899-929 | everything is swept whenever the deletions take effect |
| Leftovers.OnlyRoutesFailSucceeds | internal/routing/routing.go:370-375 | Reconcile succeeds from any state in step with the previous configuration when only tolerated route commands meet faults |
| Leftovers.RefusedRoutesAgree | internal/routing/routing.go:366-398 | the case the tolerance is for: with any number of policy and gateway routes refused and everything else done, Reconcile succeeds and routing and filtering agree for every strict peer |
| StaleRoute.StaleRouteRejected | internal/routing/routing.go:376-398 | an input on which they disagree: the deletion of a policy route that was given up is refused, Reconcile succeeds, the packet is routed through that route and the strict chain rejects it |
| Uplinks.AssignedPeer | internal/routing/routing.go:514-542 | a packet of an enabled peer assigned to a usable VPN gateway is decided before the kernel's own rules, never left without a rule, and by table main only if its destination is on the LAN list or a device entry for its address is direct |
| Uplinks.AssignedDevice | internal/routing/routing.go:549-591 | a packet of an enabled device with a gateway ID, usable or not, is decided before the LAN bypass, and by table main only if another entry for the same address is direct |
| Uplinks.ReservedTableAssigned | internal/routing/routing.go:27-42 | the allocator hands out one of the kernel's tables 253 to 255 exactly if every ID from 100 to 252 is taken and one of those three is not: the premise of the confinement results, as a condition on the peers |
| Tables.AssignRoutingTableID | internal/routing/routing.go:27-42 | returns the least unused ID from 100 on, at most 100 plus the number of used IDs, so the scan ends |
| Tables.TablesUnique | internal/models/models.go:805-839 | the duplicate check over a map of seen tables accepts a peer list exactly if no two roles of any peers share a table |
| Tables.EnsureGatewayTables | internal/config/config.go:112-143 | zeros are filled in place in order, and the result says whether there was one |
| Tables.ReserveGatewayTables | internal/gateway/manager.go:398-422 | the gateway manager's own loop, which does not look at the peers |
| Tables.FillingIsFresh | internal/config/config.go:112-143 | non-zero IDs are kept; each zero becomes an ID from 20000 on that nobody used, and the new IDs increase |
| Tables.EnsuringOnceIsEnough | internal/config/config.go:112-143 | the allocation is idempotent, changes nothing exactly if no ID is zero, and leaves nothing for the gateway manager's loop to do |
| Tables.AssignNewPeerTables | internal/handlers/peers.go:276-284 | a new peer's tables are unused by every other peer and from 100 on, its policy table differs from its exit table, and nothing else about it changes |
| Tables.CascadeClearExitNode | internal/models/models.go:901-907 | every reference to the ID is cleared in place, so that none is left, and no other reference and no other field changes |
| Tables.UpdatePeer | internal/handlers/peers.go:287-355 | the edit in place, each table assignment seeing the ones before it: leaving a role gives its table up, entering one takes the next unused table |
| Tables.EditExact | internal/handlers/peers.go:287-355 | after an edit the peer has the settings of the form and keeps its ID, its devices and the tables it still needs; of every other peer only a reference to a peer that stopped being an exit node is dropped, and none to it remains |
| Tables.DeleteExact | internal/handlers/peers.go:383-403 | after a deletion the other peers are as they were and in order, but for references to a deleted exit node, which are dropped |
| Tables.EditKeepsTablesApart | internal/handlers/peers.go:276-355 | creating, updating or deleting a peer or importing a gateway keeps all tables of peers and gateways distinct and gives every role that needs a table one; up to 9950 peers all peer tables stay below 20000 and no gateway's table ever changes |
| Tables.TablesStayApart | internal/config/config.go:363-376 | so it is over every run of edits |
| Tables.VacantRole | internal/routing/routing.go:27-42 | the pigeonhole count behind the range: a list with a vacant role uses fewer than two tables per peer |
| Wireguard.HookLines | internal/wireguard/wireguard.go:305-313 | one scan that splits at newlines, trims and drops blank lines yields the commands of the hook text |
| Wireguard.HooksJoin | internal/wireguard/wireguard.go:305-313 | hook texts separated by a newline hold the commands of both, one after the other |
| Wireguard.NormalForm | internal/wireguard/wireguard.go:305-313 | writing the lines out and reading them back gives the same lines, so two texts hold the same commands exactly if their normal forms are equal |
| Wireguard.ServerRestartReason | internal/wireguard/wireguard.go:117-143 | no reason exactly if nothing wg-quick owns differs, and a reason names exactly the fields that differ |
| Wireguard.SameInterfaceIsEquivalence | internal/wireguard/wireguard.go:117-143 | having no reason is an equivalence, so reverting an edit clears it |
| Wireguard.BlankLinesDoNotMatter | internal/wireguard/wireguard.go:127-133 | newline-only edits of a hook are no reason to restart |
| Wireguard.IndentationDoesNotMatter | internal/wireguard/wireguard.go:305-313 | nor are spaces, tabs, carriage returns and the other Latin-1 blanks at either end of a line |
| ConfigStore.Store.Load | internal/config/config.go:163-201 | there is a store unless the file cannot be read or parsed, or tables had to be filled in and could not be saved; a fresh store is pending, has applied nothing, and has every missing gateway table filled in, in memory and in the file; without a file it holds the defaults |
| ConfigStore.Store.Write | internal/config/config.go:363-448 | all or nothing for every mutation and every failure point: a kept write has memory, file and flag at the new valid configuration; any other leaves memory, flag and live state as they were, and the file too unless the restore itself fails; Valid, kept by every method, holds the restart flag to its exact meaning and forbids Reconcile and enabling BGP while it is set |
| ConfigStore.Store.ConvergeRouting | internal/config/config.go:419-425 | the routing state is remembered only on success; without faults the kernel is afterwards exactly in step with it, and a failure in steps 2 to 4 leaves strict traffic rejected |
| ConfigStore.Store.ApplyLive | internal/config/config.go:406-433 | which errors are reported and what is done to the live system, for every combination of interface state, reload, flag and BGP |
| ConfigStore.Store.RefreshFlag | internal/config/config.go:377-383 | after it the flag is exact for the new server settings |
| ConfigStore.Store.RecordPeerStats | internal/config/config.go:274-298 | a peer in the snapshot gets its counters and the later of the two handshakes, nothing else about it changes, and a peer not in it stays as it is; the dirty flag is set exactly if something changed |
| StatsFlag.RecordExact | internal/config/config.go:274-298 | a recording leaves the dirty flag exact for every file that may lie behind memory, if and only if it changes nothing or takes some counter up |
| StatsFlag.WriteExact | internal/config/config.go:363-405 | a write leaves the flag exact if and only if rendering does not fail with the file not put back, unless the rendered configuration was the old one |
| StatsFlag.FlagRightForever | internal/config/config.go:274-405 | over every history of recordings, saves and writes, each of which may fail, in which no recorded counter is below the one in memory and failed writes are put back: the file equals memory exactly while the flag is clear, and lags behind in counters only |
| StatsFlag.LoadedIsTight | internal/config/config.go:163-201 | a store just loaded from its file is where such a history starts |
| StatsFlag.SavingRecovers | internal/config/config.go:301-405 | whatever came before, a complete save makes the flag exact again |
| ConfigStore.Store.SaveStats | internal/config/config.go:301-314 | a dirty store whose file can be written ends clean with the file at the current configuration; in every other case nothing changes, and only a dirty one that cannot save reports an error |
| ConfigStore.Store.ReapplyBGP | internal/config/config.go:451-458 | an enabled BGP is refused while a restart is pending |
| ConfigStore.Store.ReapplyRouting | internal/config/config.go:463-482 | refused while a restart is pending; otherwise converges the kernel to the current configuration, remembering it only on success |
| ConfigStore.Store.MarkWireGuardRestarted | internal/config/config.go:504-513 | the flag is cleared, the current server settings count as applied, and the store is in step with a kernel that holds the current configuration |
| ConfigStore.DirtyButCurrent | internal/config/config.go:289-296 | a falling counter is what breaks it: after one that goes up and back down the flag is set although file and memory are equal |
| ConfigStore.Exact | internal/config/config.go:419-425 | the step from one applied state to the next is exact for every order of exit nodes |
| Filters.BuildFilterChain | internal/bgp/bgp.go:451-493 | the chain accepts exactly the routes whose first matching term accepts, everything if no filter is configured, and nothing if all configured prefixes are invalid; it always decides |
| Filters.PolicyMeans | internal/bgp/bgp.go:451-493 | a prefix passes exactly if there is no filter or the first filter that selects it accepts |
| Filters.SelectsMeans | internal/bgp/bgp.go:458-475 | a filter selects a network exactly if it is the filter's own, or, unless exact, all its addresses lie in it |
| Filters.PrependMaxPrefixLength | internal/bgp/bgp.go:549-581 | prefixes longer than the limit of their family are rejected and all others left to the chain behind; 0 means no limit |
| Filters.BuildExportFilterChain | internal/bgp/bgp.go:495-525 | a route is accepted exactly if the session takes local routes or the prefix is not local, it is within the limit, and the policy permits it; redistributed paths then get the session's own next hop |
| Bgp.DesiredPeers | internal/bgp/bgp.go:197-217 | there is a result exactly if every enabled peer can be built and no two share an address; it holds one session per enabled peer, which lets in exactly the routes within the received limit that the import policy permits, and sends exactly those within the advertised limit that the export policy permits, local ones only if it redistributes and then with the local address as next hop |
| Bgp.BuildPeerConfig | internal/bgp/bgp.go:219-290 | a session can be built exactly if its address parses, its port is 179, both limits are at most 128 and, if it redistributes, the local address is known; its chains are then the configured ones |
| Bgp.Runtime.Withdraw | internal/bgp/bgp.go:613-621 | unwanted local routes are withdrawn in any order and every state on the way is safe |
| Bgp.Runtime.EnsurePeer | internal/bgp/bgp.go:333-358 | what becomes of one desired session, exactly, for every answer of the daemon: added, kept, replaced, put back or lost; no other session is touched |
| Bgp.Runtime.ReconcilePeers | internal/bgp/bgp.go:319-360 | nothing happens if the peers are inconsistent; otherwise, on every outcome, only desired sessions run and each has met that fate, success means every one is in force, and failure that the daemon refused one |
| Bgp.Runtime.Install | internal/bgp/bgp.go:637-652 | routes are added one by one and a failure leaves the added ones recorded |
| Bgp.Runtime.Apply | internal/bgp/bgp.go:603-655 | whatever fails, in every state the daemon has ever been in, every session whose chain does not redistribute rejects every local prefix in the RIB; an apply that gets to the sessions ends as ReconcilePeers says, one that does not leaves them alone, and success means sessions and local routes are exactly the desired ones |
| Bgp.OptedOutDenies | internal/bgp/bgp.go:319-360 | by configuration: after any apply that got as far as the sessions, a live session the configuration opts out denies every local prefix in the RIB, unless it ran opted in before and is unchanged |
| Bgp.OptOutExact | internal/bgp/bgp.go:340-356 | whether a session that is to run without local routes still redistributes them after an attempt, as a condition on the sessions before and the daemon's answers alone: it did before, its replacement was refused, and the previous session was taken back |
| Bgp.OptOutReverted | internal/bgp/bgp.go:340-356 | a run in which it occurs: the apply fails and the session opted out can still be sent a local prefix another session wants |
| Bgp.ConfiguredDenies | internal/bgp/bgp.go:508-525 | a session set up without redistribution denies every local prefix it was set up for |
| Bgp.DesiredDenies | internal/bgp/bgp.go:623-637 | so no desired session stands in the way of withdrawing first and installing last |
| Supervision.ReconcileNetworks | internal/zerotier/zerotier.go:495-520 | a completed reconcile leaves exactly the configured networks joined, each with exactly the configured flags, IDs compared in lower case; wherever it stops, no wanted network was left on the way, and every network is as it was or as configured |
| Supervision.SpellingDoesNotMatter | internal/zerotier/zerotier.go:495-520 | network IDs that differ in case alone are one network |
| Supervision.StepKeepsInv | internal/zerotier/zerotier.go:295-520 | every locked section and every call to the daemon keeps the invariant |
| Supervision.NothingEverLost | internal/zerotier/zerotier.go:181-371 | under every interleaving of Configure, Restart, crash, port change and poll: while a daemon is attached and its generation counts as applied, it is joined to exactly the networks configured now, with the flags configured now |
| Supervision.FromTheStart | internal/zerotier/zerotier.go:113-120 | in particular over every run of a new supervisor |
| Supervision.PollConverges | internal/zerotier/zerotier.go:307-371 | from any reachable state one undisturbed poll puts the current configuration in force |
| Supervision.RestartReplaces | internal/zerotier/zerotier.go:295-304 | after a restart, under every interleaving that follows, no daemon started before it is ever attached again |
| Supervision.RestartReconciles | internal/zerotier/zerotier.go:295-304 | and the next undisturbed poll puts the configuration in force on a daemon newer than the restart |
| Supervision.DisabledPollStops | internal/zerotier/zerotier.go:313-319 | a poll with ZeroTier disabled ends with nothing attached |
| Supervision.Supervisor.Configure | internal/zerotier/zerotier.go:181-189 | a new configuration gets a new generation |
| Supervision.Supervisor.RestartStop | internal/zerotier/zerotier.go:295-300 | refused while disabled; otherwise nothing is attached afterwards, and configuration and generation are as before |
| Supervision.Supervisor.RestartReset | internal/zerotier/zerotier.go:301-304 | after the wait nothing counts as applied |
| Supervision.Supervisor.Reap | internal/zerotier/zerotier.go:423-434 | only the process still attached is marked as exited |
| Supervision.Supervisor.EnsureRunning | internal/zerotier/zerotier.go:374-445 | a crashed process is replaced, a changed port stops it first, a running one is kept; a new process has nothing applied |
| Supervision.Supervisor.Look | internal/zerotier/zerotier.go:325-333 | a reconcile is skipped only if the captured generation is the applied one |
| Supervision.Supervisor.Reconcile | internal/zerotier/zerotier.go:350-354 | the network reconcile, outside the lock, is one step of the state machine |
| Supervision.Supervisor.Record | internal/zerotier/zerotier.go:354-357 | the captured generation, not the current one, becomes the applied one |
| Revision.Board.SetSnapshot | internal/zerotier/zerotier.go:193-220 | a changed observation gets the next revision and wakes exactly the waiters of the one it replaces; an equal one changes nothing |
| Revision.Board.SnapshotVersion | internal/zerotier/zerotier.go:229-236 | the revision names the snapshot it is returned with |
| Revision.Board.WaitForChange | internal/zerotier/zerotier.go:240-251 | returns at once exactly if the revision is no longer current, and otherwise waits on the channel of that revision |
| Revision.Board.ServiceFailed | internal/zerotier/zerotier.go:138-144 | the daemon's last error line is remembered, with its remedy if there is one, and is otherwise kept |
| Revision.LongPoll | internal/zerotier/zerotier.go:240-263 | whatever is observed meanwhile, a poll that comes back with the revision it last saw is answered at once exactly if something changed, and the channel it waited on is closed exactly then |
| Revision.SameRevisionSameSnapshot | internal/zerotier/zerotier.go:193-236 | two reads with equal revisions saw equal snapshots, and a channel captured at revision r is closed exactly if the revision exceeds r |
| Cbor.Reader.DecodeItem | internal/auth/cbor.go:61-134 | the recursive decoder that consumes a reader returns what the specification of the remaining bytes says and leaves exactly the unread bytes |
| Cbor.Reader.ReadLength | internal/auth/cbor.go:136-165 | arguments of 0, 1, 2, 4 and 8 bytes in big-endian order; info 28 to 31 is an error |
| Cbor.Reader.DecodeArray | internal/auth/cbor.go:93-102 | the array loop reads its elements in order |
| Cbor.Reader.DecodeMap | internal/auth/cbor.go:103-117 | the map loop reads its entries in order; RoundTrip and IllKeyPanics say what comes of well-formed entries and of the first key of another kind |
| Cbor.DecodeReads | internal/auth/cbor.go:61-134 | a success consumes at least one byte, and whatever is put after the consumed bytes the same item comes out and what was put there is left |
| Cbor.PrefixDetermined | internal/auth/cbor.go:61-134 | two inputs that agree on the consumed bytes decode to the same item |
| Cbor.RoundTrip | internal/auth/cbor.go:61-134 | every definite-length encoding in any sufficient argument width, with integers, texts and simple values as map keys and tags stripped, decodes to the tree it was written from, whatever follows |
| Cbor.IllKeyPanics | internal/auth/cbor.go:103-117 | a map whose first key that is a byte string, an array or a map stands behind well-formed entries panics once the value of that key has been read, and fails as that value does if it cannot be |
| Cbor.OnlyTheWholeDecodes | internal/auth/cbor.go:61-134 | of the beginnings of an encoding only the whole of it decodes |
| Cbor.DistinctKeysAllKept | internal/auth/cbor.go:103-117 | with distinct keys the decoded map holds exactly the encoded entries |
| Cbor.NegativesAreExactBelowTwo63 | internal/auth/cbor.go:78-80 | a negative integer decodes to itself exactly if its argument is below 2^63; from there on to the value 2^64 above, which is not negative |
| Ipam.NextIP | internal/ipam/ipam.go:78-95 | the carry loop adds one to the big-endian value and returns nothing exactly at all ones |
| Ipam.MappedRange | internal/ipam/ipam.go:82-86 | the sixteen-byte forms that count as IPv4 are exactly the range ::ffff:0:0/96 |
| Ipam.InPool | internal/ipam/ipam.go:43-44 | an address is in the pool exactly if its value lies in the pool's interval |
| Ipam.FindAllocationNetwork | internal/ipam/ipam.go:55-76 | the first entry that is IPv4, in whichever notation, or the first entry at all |
| Ipam.PoolIsNetwork | internal/ipam/ipam.go:22-31 | a network written in IPv4-mapped notation that starts in the mapped range lies in it and is scanned as a well-formed IPv4 network |
| Ipam.PoolIsSame | internal/ipam/ipam.go:22-31 | and it holds exactly the same addresses, written as IPv4 |
| Ipam.WrittenIsText | internal/ipam/ipam.go:17-41 | two sixteen-byte forms are told apart by the address they are written as: the IPv4 one for a mapped form |
| Ipam.UsedAddresses | internal/ipam/ipam.go:17-41 | the set filled in the loop holds the server's address, every address in use as written, the IPv4 network address and, in IPv4 notation, the broadcast address; nothing else |
| Ipam.BroadcastKept | internal/ipam/ipam.go:97-105 | the broadcast address of an IPv4 pool is never handed out, for any server and used addresses, if and only if the pool was not written in mapped notation or is a single address; otherwise there are used addresses with which it is |
| Ipam.PrefersV4 | internal/ipam/ipam.go:55-76 | it is IPv4 exactly if some entry is, missing exactly if none parses, and the first of its kind |
| Ipam.NextFree | internal/ipam/ipam.go:43-52 | the address is neither the server's nor any in use nor the broadcast address, every smaller one above the network address is one of those, and the pool is exhausted exactly if every address the scan reaches is; the scan ends for every pool, also at the top of the address space |
| Ipam.NextAvailableIP | internal/ipam/ipam.go:12-53 | for every list of parsed addresses, mapped notation included: the address lies in the pool, above the network address, differs from the server's and from every address in use as written and in IPv4 notation from the broadcast, and every smaller one equals one of these; an error exactly if no entry parses or every address the scan reaches is one of these |
| Ipam.ScanIsComplete | internal/ipam/ipam.go:43-52 | the scan reaches the whole pool if and only if the pool is not an IPv6 one running into the mapped range |
| Traffic.Collector.Poll | internal/wgstats/wgstats.go:237-360 | per peer one observation for each of its lines, forgetting for peers no longer listed; reported totals are base plus session, and the interface total is the sum over the listed peers |
| Traffic.Collector.Observe | internal/wgstats/wgstats.go:280-320 | the first reading counts nothing, a later one counts the difference or, if the counter dropped, the reading itself; the reported totals are base plus session |
| Traffic.Collector.SetPeerBases | internal/wgstats/wgstats.go:92-99 | bases are replaced for the given peers only |
| Traffic.Collector.ResetPeerBase | internal/wgstats/wgstats.go:102-112 | the peer starts over and no other is touched |
| Traffic.TotalsAccumulate | internal/wgstats/wgstats.go:280-326 | over any run of polls that list a peer its totals are those at the start plus the sum of all growth |
| Traffic.TotalsNeverShrink | internal/wgstats/wgstats.go:280-326 | totals never shrink while a peer is listed |
| Traffic.GrowthTelescopes | internal/wgstats/wgstats.go:280-305 | without a restart the growth is the last reading minus the first |
| Traffic.RestartsAreMadeUp | internal/wgstats/wgstats.go:280-305 | with restarts it is the last reading minus the first plus, for every restart, the counter reached before it |
| Traffic.DropCountsInFull | internal/wgstats/wgstats.go:280-305 | a reading below the one before it adds itself: 40 after 100 adds 40 |
| Traffic.SumAdds | internal/wgstats/wgstats.go:258-321 | the interface total adds up over parts of the dump, and of one line is that peer's total |
| Traffic.ListedOnce | internal/wgstats/wgstats.go:262-320 | a dump that lists a peer once is one reading of its counters |
| Traffic.Collector.PollLoop | internal/wgstats/wgstats.go:213-235 | the polling loop takes every peer through the polls of its dumps |
| Traffic.PollingAccumulates | internal/wgstats/wgstats.go:213-326 | over any run of polls whose successful dumps each list the peer once, however many polls fail, the totals of a peer new to the collector are those at the start plus everything its counters grew by |
| Traffic.VanishingForgetsReceived | internal/wgstats/wgstats.go:343-352 | a peer that was missing from a dump comes back with nothing received and all it had sent; its totals survive exactly if it had received nothing |

## Left out

- Parsing: texts of CIDR lists, routes with " via ", hook placeholders and YAML are taken as parsed; blank and empty IDs are not told apart, and IPv4-mapped IPv6 CIDRs are left out except in the address allocator.
- Kernel behaviour beyond rules, tables and the modelled chains: connection tracking, marks, other tables' contents, and route lookups in `main`. A route the kernel refuses (such as one with host bits set) is a command that fails.
- `Routes.GenerateExitRoutes`: the map of exit nodes is taken as a list in some iteration order; the theorems hold for every order.
- The list of prefixes that bypass the ZeroTier masquerade is an input; how it is collected from the BGP advertisements is not modelled.
- `Hooks.UpDownRestores`: PostDown does not take down the gateway chains, so they and the jumps to them are excepted, and the kernel is assumed to hold nothing of the application's before.
- FaultFreeRuns.ReconcileConverges: holds for runs without faults from a state in step with the previous configuration; after a failed Reconcile exact rule convergence is not claimed, because leftovers of the failed run at managed priorities need not be removed by the next one.
- Guards.GuardConservation: a guard left behind by a failed run is not removed by later runs, so nothing is said about its removal.
- Confinement.StrictConfinement: the kernel's reserved tables 253 to 255 are excluded by a premise, because the allocator does not avoid them; more than 6000 peer rules would run into the next block.
- Convergence.AllSlotsDistinct: that the priority blocks stay within their gaps is a premise throughout (`Convergence.WithinGaps`); no validation bounds the number of rules.
- Uplinks.AssignedPeer: more gateway rules than fit below priority 32766 are excluded by a premise, and a converged kernel is taken as given (`FaultFreeRuns.ReconcileConverges` is how it comes about).
- Agreement.StrictChainIsExact: premised on no other enabled peer being authorized to use the packet's source address; validation only rejects equal prefixes, and where prefixes overlap the first peer's rules decide.
- Evaluation.PeerLookups: premised on the same, and on the block being in place; Evaluation.WhereItGoes also on the address having no device entry, which Evaluation.DeviceLookups deals with.
- FailClosed.FailClosedTransition: says nothing about packets that match an accept of the next gateway chain, nor about the time before step 1 has succeeded or after step 5 has begun.
- Tables.UpdatePeer: takes the position of the peer; looking it up by ID and the checks of single form fields are left out.
- Tables.EditKeepsTablesApart: starts from a configuration whose peer tables lie below 20000 and whose gateway tables do not; a hand-written file may violate that.
- ConfigStore.Store.Load: reading and parsing are one of four outcomes; the text of the file is not modelled.
- StatsFlag.FlagRightForever: starts from a store with a file; before the first save of a fresh installation there is none to compare with.
- ConfigStore.Store.Write: change callbacks and the texts of errors are left out; validation is an arbitrary predicate on the new configuration, and a file is replaced completely or not at all.
- ConfigStore.Store.ReapplyRouting: the convergence clause needs the premises of a fault-free Reconcile (`ConfigStore.Movable`).
- Server settings other than those wg-quick owns, the listen port and the BGP switch; passkeys, sessions and all HTTP handlers.
- Bgp.Runtime.Apply: sessions, finite state machines and RIB structures of bio-rd are not modelled: a filter chain stops at the first term that decides, equal chains are equal values, and which settings force a restart is an arbitrary relation.
- Starting and stopping the BGP runtime, its listeners, and the kernel installation of learned routes.
- Supervision.Supervisor.EnsureRunning: the restart backoff, the preflight checks and the process itself are one outcome, "starts or does not"; generation and revision counters do not wrap.
- Revision.Board.WaitForChange: the wait itself (channel, request end or timeout) is left to the caller; the channel always exists, as in a supervisor made by its constructor.
- Rates, sparkline history and display formatting of the traffic collector; its counters are unbounded numbers.
- Cbor.Reader.DecodeItem: slice sizes beyond the runtime's limit panic; running out of memory below that limit is not modelled. COSE key extraction is left out.
- Ipam.NextAvailableIP: the bytewise or of the broadcast address is modelled as the last value of the pool.
- Gateway `wg-quick` control, ping scans, QR codes, charts and cryptography: I/O or library calls.
