# Egress gateway CNI plugin: a verified model

The plugin lets pods leave a cluster through egress gateways. A node agent puts Foo-over-UDP tunnels and
policy routes into a client pod's network namespace; on the gateway, a pod watcher keeps one tunnel and one
return route per client address; a controller maintains the gateway's deployment and role binding. This project
models that logic in Dafny and proves what it guarantees, over all inputs, all kernel failures and all runs.

| file | subject |
|---|---|
| `Cidr.dfy`, `Kernel.dfy` | addresses and prefixes as bit strings; links, policy rules, routing tables, the class `Host` |
| `Routing.dfy` | tables, rule walks, the flat longest-prefix-match table, the built-in networks |
| `RuleBand.dfy`, `Flatness.dfy` | clearing and installing the rule band; exactly when the installed rules are one flat table |
| `NatClient.dfy` | the NAT client |
| `LinkNames.dfy`, `FouTunnel.dfy`, `Bootstrap.dfy` | tunnel link names, tunnels and receive devices, one-time initialisation |
| `Receivers.dfy` | the receive devices after a list of peers, after retries, under another order |
| `Gateway.dfy`, `WatcherModel.dfy`, `PodWatcher.dfy` | return routes; the watcher as a state machine and its run theorems; the watcher object |
| `Annotations.dfy`, `Agent.dfy`, `EndToEnd.dfy` | annotations to gateways, pod set-up, where packets go, outcome and tables under any order |
| `PeerOrder.dfy` | the receive devices as a matter of the order of annotations |
| `RoleBinding.dfy`, `PodTemplate.dfy` | the role binding; deployment, service and status of an Egress over its whole life |

## Main results

1. **Two tiers are one flat table, exactly when.** The walk over the rules that Init leaves, in the order the kernel
   keeps them, among any other rules and for any number of private networks, is a single longest-prefix match
   (section 5.2.4.3 of RFC 1812) at exactly the addresses that are not *overtaken*: private rules from number 102 on
   have priorities behind the wide rule, so their traffic follows a wide match into a tunnel. For every registered
   set and every address the two agree if and only if every permitted subnet is *clear* and overtakes nothing; with
   at most 101 private networks outside the link-local range this is that every permitted subnet is *safe*. A safe
   subnet does not go to the narrow table while it properly contains a private network; a clear one is the same for
   private networks and permitted wide subnets outside the link-local range. For the built-in networks (section 3 of
   RFC 1918, section 3.1 of RFC 4193) the unsafe prefixes are exactly 10.0.0.0/7, 192.168.0.0/13, /14, /15 and
   fc00::/6. A list of 102 networks shows the failure.
2. **Client initialisation forgets history.** With at most 101 private networks per family it leaves the rest of the
   namespace alone on every path, including failing ones, and can be repeated; both hold if and only if that bound
   does, because the rules of further networks land outside the band that Init clears.
3. **Coverage on the gateway.** Over every run with AddPeer and AddClient failing anywhere, every supported address
   of every tracked pod keeps its tunnel and the one route through it, provided that a pod's addresses are distinct,
   no update drops an address another pod lists, and DelPeer fails only at the first address of a removal. The
   conditions are exact: an update keeps coverage if and only if it drops no address another pod lists, keeps the
   index exact if and only if it drops nothing, an interrupted removal keeps the index if and only if it stopped at
   its first address, and a list with a repetition is never released. Without kernel faults adding a pod completes
   if and only if no fallback device is in the way, and releasing it if and only if its addresses are distinct and
   indexed; what the watcher has recorded about a pod is its last completed request.
4. **Retries converge, except for the receive devices.** Every attempt at addPod that does not complete met a kernel
   fault, unless a fallback device was in the way from the start. After any number of failures anywhere, completing
   it gives the lists, index, tunnels and return routes of one uninterrupted call. After a completing attempt
   without kernel faults the receive devices are those of an uninterrupted call if and only if that attempt still
   had a link to create or found them right: a failure between creating the last link and its device is not repaired
   by retrying. A released pod cannot be released twice.
5. **End to end.** After set-up the kernel's walk sends a packet into a tunnel if and only if some egress the pod
   asks for has the longest matching destination, and then to that egress's service, unless a destination is one of
   the five exceptions of result 1; all conditions are on the state before set-up. On every path set-up keeps every
   other rule, table and link, up to the fixed tunnel devices and routes through them. Without kernel faults it
   fails exactly for repeated destinations, a port left open by an unfinished set-up, or a fallback device that
   cannot be renamed. From one state all orders of reading the annotations have the same outcome and give equal
   tables; they leave the same receive devices if and only if the tunnels to be created are of one address family.
6. **One selector.** Over every life of an Egress (edits, outside edits, failures, termination, re-creation), a
   complete round leaves deployment, service and status with one selector that matches the pods of this Egress and
   of no other, and what the controller decides depends on the last edition alone.
7. **Defects, with their exact conditions**: removing the last pod that lists an address leaks its tunnel if and
   only if another pod's index entry is stale; over all runs with failures anywhere, a tunnel nobody lists has a
   stale entry, or was left by an earlier process or by an addPod that never completed, and runs from an empty
   watcher reach both; a half-removed pod is stuck until an addPod of it completes, and until then only; an
   interrupted initialisation is blocked for good; a name collision hands out another peer's tunnel; a new tunnel of
   the second address family takes away the first one's receive device; stale role bindings survive behind a
   matching leading part.

## Assumptions

- The kernel keeps rules in priority order, a new rule behind those of equal priority; adding a present rule or a
  route to a present destination fails; deleting a link removes the routes through it; renaming a link renames it
  in its routes. A route names its device by link name, and a table has one route per destination.
- A namespace gets the fallback device of a tunnel module at most once, and a device called egress_tunl or egress_ip6tnl
  is that device, renamed. Renaming to a taken name fails.
- A lookup that reaches the main table ends there, because that table has a default route.
- Any kernel call may fail at any time. `Host.faults` counts such failures, so "no kernel fault" can be stated. A
  crash between two calls is a failure of the second.
- `NoCollision`: the four-byte SHA-1 prefixes of the IPv6 addresses in use differ. SHA-1 is an arbitrary function
  parameter.
- Networks are in canonical form, as `net.ParseCIDR` returns them; an IPv4-mapped address is its IPv4 address; the
  text form of an address determines it. Text parsing and API reads are inputs.
- `DeepDerivative` takes an empty wanted field as matching anything and accepts a wanted list that is a leading part
  of the present one.
- Every watcher step holds the watcher's mutex, so steps are atomic towards each other.
- The API server refuses to write an object that changed since it was read, keeps a deployment's selector, and stores
  what is written; fields it fills in by default are not part of the model. Only the controller creates the deployment.

Where documentation and code differ the model follows the code: the interface comments call all methods idempotent,
but an interrupted `Init` is not repeatable; return routes have no removal call, yet they disappear with the link.

## Model

| member | source | states |
|---|---|---|
| `Cidr.Nested` | pkg/founat/client.go:252-255 | networks that share an address are nested, the fact the classifier rests on |
| `Routing.NarrowSpreads` | pkg/founat/client.go:252-267 | every subnet inside a safe narrow subnet is narrow too |
| `Routing.WideIsShorter` | pkg/founat/client.go:269-278 | a subnet in the wide table is shorter than every private network it shares an address with |
| `RuleBands.InstallShape` | pkg/founat/client.go:169-192 | for any number of private networks: the rules below the band, the band of the first 101 networks, the rules above with the other private rules among them |
| `Flatness.WalkAbove` | pkg/founat/client.go:180-186 | above the band the first private network containing the address decides, unless another rule up to its priority does |
| `Flatness.InstalledWalk` | pkg/founat/client.go:164-192 | what the rules in the kernel's order mean: rules below, link-local, narrow table, first 101 private networks, wide table, the rest |
| `Flatness.TwoTierIsFlatIff` | pkg/founat/client.go:164-279 | with safe subnets the rule walk is the flat longest-prefix match, ties to the link, at exactly the addresses not overtaken |
| `Flatness.UnsafeDisagrees` | pkg/founat/client.go:252-266 | one narrow subnet around a private network alone sends that network's addresses into the tunnel |
| `Flatness.HiddenDisagrees` | pkg/founat/client.go:252-278 | a narrow subnet around a wide one takes the wide one's traffic |
| `Flatness.OvertakenDisagrees` | pkg/founat/client.go:180-191 | a wide subnet alone takes the traffic of private networks from number 102 on |
| `Flatness.FlatIffClear` | pkg/founat/client.go:164-279 | for any private networks and permitted collection, walk and flat table agree for all sets and addresses if and only if all permitted subnets are clear and overtake nothing |
| `Flatness.FlatIffSafe` | pkg/founat/client.go:164-279 | up to 101 private networks outside the link-local range: if and only if all permitted subnets are safe |
| `Flatness.ManyNetworksLeak` | pkg/founat/client.go:180-191 | with 102 networks a safe default route sends all of 192.168.0.0/16 into the tunnel |
| `Routing.UnsafeShape` | pkg/founat/client.go:252-255 | unsafe subnets are exactly those that properly contain a private network and are contained in one or extended by one with zero bits |
| `Routing.BuiltinExceptions` | pkg/founat/client.go:29-39 | over all canonical prefixes, exactly five break the flat reading of the built-in lists |
| `Routing.BuiltinV4` | pkg/founat/client.go:29-43 | by octets: 10, 172.16 to 172.31 and 192.168 are private, 169.254 is link-local, nothing else |
| `Routing.BuiltinV6` | pkg/founat/client.go:29-43 | by octets: fc and fd are private, fe80 to febf is link-local, nothing else |
| `Flatness.BuiltinFlat` | pkg/founat/client.go:29-43 | the built-in configuration is flat for every registered set if and only if the five prefixes are not permitted |
| `RuleBands.InstallIsCanonical` | pkg/founat/client.go:169-192 | adding the rules one by one gives the canonical list: the band between the rules below 1800 and above 2100 |
| `RuleBands.RulesOnTheWire` | pkg/founat/client.go:12-26 | the client's rules by priority, table and destination, with the numbers the kernel sees |
| `RuleBands.FreshWithinBound` | pkg/founat/client.go:180-186 | with at most 101 private networks no rule of the band collides |
| `RuleBands.CanonicalKeepsOutside` | pkg/founat/client.go:120-131 | rules outside 1800..2100 are the same before and after |
| `RuleBands.OutsideAfterInstall` | pkg/founat/client.go:180-186 | what Init leaves outside 1800..2100: the rules found there and the private rules from number 102 on |
| `RuleBands.FrameIffWithinBound` | pkg/founat/client.go:120-187 | Init leaves the rules outside 1800..2100 alone if and only if there are at most 101 private networks |
| `RuleBands.ReinitIffWithinBound` | pkg/founat/client.go:120-187 | a second Init can succeed if and only if there are at most 101 private networks |
| `NatClients.InitForgetsHistory` | pkg/founat/client.go:108-224 | states that agree outside the client's rules and tables become equal by Init |
| `NatClients.InitKeepsOutside` | pkg/founat/client.go:164-224 | Init changes no other rule, table, link or family, and is idempotent |
| `NatClients.ReinitIsInit` | pkg/founat/client.go:46-50 | Init, any registrations, Init equals Init |
| `NatClients.InstalledRoutesFlat` | pkg/founat/client.go:164-279 | on an installed namespace the full rule walk is: rules before the band, the flat table, rules after the band |
| `NatClients.HoldsExtends` | pkg/founat/client.go:238-279 | a subnet is refused exactly when it is held already, otherwise it joins the held entries in the right table |
| `NatClients.NatClient.constructor` | pkg/founat/client.go:60-88 | given networks replace the built-in lists, split by family in order |
| `NatClients.NetsOfSplits` | pkg/founat/client.go:60-88 | the lists per family keep order and multiplicity and lose nothing |
| `NatClients.NatClient.ClearRules` | pkg/founat/client.go:116-131 | success leaves exactly the rules with a priority below 1800 or above 2100, failure keeps those |
| `NatClients.NatClient.ClearTable` | pkg/founat/client.go:133-159 | success empties one table and touches no other |
| `NatClients.NatClient.Clear` | pkg/founat/client.go:108-162 | one family's band and both tables are emptied, nothing outside changes even on failure |
| `NatClients.NatClient.InstallBand` | pkg/founat/client.go:169-192 | after any failure a leading part of the band is installed; without faults it fails only on a rule already present |
| `NatClients.NatClient.InitFamily` | pkg/founat/client.go:165-193 | one family initialised; without faults it succeeds if and only if no band rule is left over |
| `NatClients.NatClient.Init` | pkg/founat/client.go:164-224 | success gives the canonical state, every path keeps the outside, only a fault makes it fail (up to 101 networks) |
| `NatClients.NatClient.AddEgress1` | pkg/founat/client.go:238-279 | the base address picks the table; disabled families are skipped; an error changes nothing, and without faults means the table has the destination |
| `NatClients.NatClient.AddEgress` | pkg/founat/client.go:226-236 | in any namespace, a leading part of the destinations is registered, all of it on success, and nothing else changes; without faults it stops at a destination already there |
| `NatClients.AddedHolds` | pkg/founat/client.go:226-279 | registered destinations join the held ones, each in the table its base selects |
| `NatClients.RefusedRepeats` | pkg/founat/client.go:226-279 | a refused destination is a repetition in the whole list |
| `LinkNames.HexRoundTrip` | pkg/founat/fou.go:25-28 | hexadecimal formatting of an address can be decoded |
| `LinkNames.FouName` | pkg/founat/fou.go:25-32 | names have 13 characters, within the kernel's 15 |
| `LinkNames.FouNameMeaning` | pkg/founat/fou.go:18-32 | the prefix of the family, then the address or the digest, which can be read back |
| `LinkNames.FouNameInjective` | pkg/founat/fou.go:25-32 | two addresses share a name if and only if they are equal, or IPv6 with equal digests |
| `LinkNames.FouNameNotFixed` | pkg/founat/fou.go:18-32 | tunnel names differ from every device name the program uses |
| `FouTunnels.FouTunnel.SetupIPIPDevices` | pkg/founat/fou.go:227-271 | success leaves the requested receive devices, without faults exactly those; without faults it fails if and only if a fallback device is there and its new name is taken; only fixed devices and routes through them change |
| `FouTunnels.FouTunnel.AddPeer` | pkg/founat/fou.go:165-211 | an existing link is returned unchanged, a new one leads to the peer and brings its receive device; what a failure can leave behind; without faults failure only for a new link with the fallback device in the way; family mismatch changes nothing |
| `FouTunnels.FouTunnel.DelPeer` | pkg/founat/fou.go:376-388 | the link and its routes go, a missing link is no error, a failure changes nothing |
| `FouTunnels.LastCreatedWins` | pkg/founat/fou.go:182-210 | over every fault-free run the receive device is that of the most recently created peer alone, those found if none was created, and of the right kind |
| `FouTunnels.DevicesStayTrue` | pkg/founat/fou.go:227-345 | over every run with failures anywhere, the receive device of a family is a flow-based tunnel of that family |
| `FouTunnels.DeviceNames` | pkg/founat/fou.go:18-23 | the names of devices and markers, as the kernel sees them |
| `FouTunnels.DualStackLosesReceiver` | pkg/founat/fou.go:345-373 | an IPv6 peer after an IPv4 peer removes the IPv4 receive device |
| `FouTunnels.NamesStayTrue` | pkg/founat/fou.go:338-388 | over every run with failures anywhere and no collisions, a peer's link leads to that peer |
| `FouTunnels.CollisionMisroutes` | pkg/founat/fou.go:343-348 | with a collision the second peer gets the first one's tunnel |
| `ReceiveDevices.PeerHeardIff` | pkg/founat/fou.go:182-210 | after a fault-free AddPeer the peer's family can receive if and only if the link was new or the family could before; a new device is flow-based and of its family |
| `ReceiveDevices.CutPeerStaysUnheard` | pkg/founat/fou.go:202-207 | a call that fails between link and device leaves the peer unheard, and every later call finds the link and repairs nothing |
| `ReceiveDevices.RestartHeardIff` | pkg/founat/fou.go:182-210 | completing a cut pass over a list of peers leaves the devices of an uninterrupted pass if and only if a link was still missing or they were right |
| `ReceiveDevices.AttemptsAreCut` | pkg/founat/fou.go:182-210 | any number of cut passes is one cut pass, so the same condition holds for any number of retries |
| `ReceiveDevices.UnheardAfterRetry` | pkg/founat/fou.go:202-207 | one new peer, cut after its link: the completed pass leaves no receive device |
| `ReceiveDevices.CreationWins` | pkg/founat/fou.go:206-207 | with links to create, a fault-free pass leaves the device of a peer whose link is new, and no other |
| `ReceiveDevices.OneFamilyAgrees` | pkg/founat/fou.go:206-207 | reordering the list leaves the same devices when all new links are of one family |
| `Bootstrap.FouCommits` | pkg/founat/fou.go:85-163 | over all attempts in a new namespace, with the marker each configured family has module, port, forwarding and packet filter entries, and IPv4 its reverse-path settings; an unconfigured family is never touched |
| `Bootstrap.EgressCommits` | pkg/founat/egress.go:59-105 | the same for masquerading and the policy rule of the gateway |
| `Bootstrap.InitOnce` | pkg/founat/fou.go:85-163 | one attempt: nothing if the marker exists, otherwise settings in order and the marker last |
| `FouTunnels.FouTunnel.Init` | pkg/founat/fou.go:85-163 | the same for the tunnel, and that nothing but the marker is new among rules, routes and links |
| `Gateways.EgressNat.Init` | pkg/founat/egress.go:59-105 | the same for the gateway, and that nothing but the marker is new among rules, routes and links |
| `Bootstrap.MarkerCommits` | pkg/founat/egress.go:59-105 | over all attempts that fail or crash anywhere, the marker exists only if every setting was made, and then nothing changes |
| `Bootstrap.CleanAttemptSucceedsIff` | pkg/founat/fou.go:99-107 | without faults an attempt succeeds if and only if the marker exists or no unrepeatable setting was left behind |
| `Bootstrap.BlockedForever` | pkg/founat/egress.go:80-83 | an attempt that failed after an unrepeatable setting never succeeds by retrying |
| `Bootstrap.FouRetrySucceedsIff` | pkg/founat/fou.go:95-158 | a retry succeeds if and only if the failed attempt had not opened the first family's port |
| `Bootstrap.EgressRetrySucceedsIff` | pkg/founat/egress.go:69-100 | a retry succeeds if and only if the failed attempt had not added the first family's rule |
| `Gateways.TunnelAdded` | pkg/founat/fou.go:193-210 | a new tunnel adds one address to the tunnels and keeps all return routes |
| `Gateways.TunnelRemoved` | pkg/founat/fou.go:376-388 | removing a peer removes its tunnel and its return route and no other |
| `Gateways.MeaningOfSets` | pkg/founat/egress.go:142-147 | a listed tunnel leads to its address, and the only return route through it, in either family, is that of a listed route |
| `Gateways.SameBaseIsRouted` | pkg/founat/egress.go:133-140 | on a well-formed table comparing base addresses finds exactly the client's own route |
| `Gateways.SameBaseShape` | pkg/founat/egress.go:133-140 | which routes of any table count as present: those the address extends by zero bits, the default route excepted |
| `Gateways.EgressNat.AddClient` | pkg/founat/egress.go:107-152 | a route with the same base address counts as present, otherwise one is added; errors change nothing |
| `WatcherModel.StepKeepsIndex` | controllers/pod_watcher.go:195-247 | every tracked pair stays indexed and the "not indexed" errors are unreachable unless a DelPeer fails in a removal |
| `WatcherModel.CutKeepsIndexIff` | controllers/pod_watcher.go:224-242 | an interrupted removal keeps the index if and only if it stopped at the first address |
| `WatcherModel.RemovalSparesOthers` | controllers/pod_watcher.go:223-247 | a removal, completed or cut short, never takes down a tunnel or route another tracked pod lists |
| `WatcherModel.AddKeepsCoverageIff` | controllers/pod_watcher.go:182-193 | an update keeps coverage if and only if it drops no address another pod lists |
| `WatcherModel.StartHasInv` | controllers/pod_watcher.go:43-60 | a new watcher starts in a good state whatever tunnels an earlier process left |
| `WatcherModel.StepKeepsInv` | controllers/pod_watcher.go:150-247 | index and coverage are inductive, with AddPeer and AddClient failing anywhere |
| `WatcherModel.CoverageOverRuns` | controllers/pod_watcher.go:150-247 | coverage in every state of every run meeting the side conditions |
| `WatcherModel.RepeatedNeverReleased` | controllers/pod_watcher.go:224-242 | a pod with a repeated address can be added, and no removal of it completes |
| `WatcherModel.SharedDropBreaksCoverage` | controllers/pod_watcher.go:183-193 | a run from an empty watcher: two pods share an address, one moves, the other loses its tunnel |
| `WatcherModel.AddKeepsExactIff` | controllers/pod_watcher.go:195-203 | an update keeps the index the exact inverse if and only if it drops no address |
| `WatcherModel.ExactOverRuns` | controllers/pod_watcher.go:195-247 | over growing, completed runs from empty: exact inverse, exact tunnels and routes, gauge equals pod count |
| `WatcherModel.RetryConverges` | controllers/pod_watcher.go:154-203 | wherever addPod was cut, completing it gives the lists, index, tunnels and return routes of an uninterrupted call |
| `WatcherModel.RetriesConverge` | controllers/pod_watcher.go:154-203 | the same after any number of failed attempts |
| `WatcherModel.SameListRepairsNothing` | controllers/pod_watcher.go:161-167 | addPod with the recorded list touches no tunnel, so it cannot repair a lost one |
| `WatcherModel.ReleaseHappensOnce` | controllers/pod_watcher.go:209-247 | after a release, deleting again changes nothing, for any steps in which no addPod of the pod completes |
| `WatcherModel.HalfRemovedIsStuck` | controllers/pod_watcher.go:224-257 | a removal interrupted after its first address makes every later removal fail while no addPod of the pod completes |
| `WatcherModel.WedgeEndsIff` | controllers/pod_watcher.go:195-257 | a step ends this if and only if it is a completed addPod of the pod, which can then be removed |
| `WatcherModel.DropsBecomeStale` | controllers/pod_watcher.go:183-203 | an update leaves stale index entries for exactly the addresses it drops |
| `WatcherModel.StaleEntryLeaksTunnel` | controllers/pod_watcher.go:229-252 | while an entry is stale no removal of any pod takes the tunnel down |
| `WatcherModel.LastReleaseLeaksIff` | controllers/pod_watcher.go:224-257 | removing the last pod that lists an address leaks its tunnel if and only if another pod's entry for it is stale |
| `WatcherModel.LeaksExplained` | controllers/pod_watcher.go:150-257 | over every run, failures anywhere, a leaked tunnel has a stale entry, or was left by an earlier process or by an addPod that failed and was never completed |
| `WatcherModel.AbandonedAddLeaks` | controllers/pod_watcher.go:169-179 | an addPod fails after AddPeer and the pod is deleted: the tunnel is up with no index entry |
| `WatcherModel.MovedAddressLeaks` | controllers/pod_watcher.go:183-247 | a run from an empty watcher: p moves from a to b, q gets a and goes; the tunnel to a is up and nobody lists a |
| `PodWatchers.PodWatcher.Connect` | controllers/pod_watcher.go:169-179 | one address gets tunnel and route, or is skipped for its family; bounds on what a failure leaves; without faults it fails if and only if a fallback device is in the way |
| `PodWatchers.PodWatcher.DisconnectOld` | controllers/pod_watcher.go:182-193 | exactly the dropped addresses lose tunnel and route; a failure leaves a part of them removed |
| `PodWatchers.PodWatcher.Record` | controllers/pod_watcher.go:195-205 | lists, index and gauge after recording |
| `PodWatchers.PodWatcher.AddPod` | controllers/pod_watcher.go:150-207 | every outcome of addPod is the corresponding step of the state machine and a cut pass over the new addresses; without faults it completes if and only if no new supported address finds a fallback device in the way, and leaves the receive device of the link created last |
| `PodWatchers.PodWatcher.RetryAddPod` | controllers/pod_watcher.go:150-207 | every attempt that does not complete met a kernel fault, or a fallback device was in the way from the start; completion gives the state of one uninterrupted call, and its receive devices, after a fault-free last attempt, if and only if that attempt had a link to create or found them right |
| `PodWatchers.PodWatcher.ExistsOtherLivePeers` | controllers/pod_watcher.go:249-257 | an error if and only if the pod's own entry is missing, otherwise whether another pod is indexed |
| `PodWatchers.PodWatcher.ReleaseAll` | controllers/pod_watcher.go:224-242 | which leading part of the addresses was released, and why it stopped |
| `PodWatchers.PodWatcher.DelPeer` | controllers/pod_watcher.go:223-247 | every outcome of delPeer is the corresponding step; without faults it completes if and only if the addresses are distinct and all indexed |
| `PodWatchers.PodWatcher.Reconcile` | controllers/pod_watcher.go:109-148 | a completed request lists an accepted pod that has not ended with its addresses, and leaves one that has ended or is missing unlisted; any other request changes nothing; other pods keep their lists |
| `PodWatchers.PodWatcher.Serve` | controllers/pod_watcher.go:113-148 | any sequence of requests is a run, so the run theorems apply to the object, and the last completed request for a pod is what is recorded about it |
| `PodWatchers.ServeFromStart` | controllers/pod_watcher.go:43-148 | a new watcher serving any requests: while the steps were benign, a pod whose last request completed has tunnel and route for every supported address; exact while lists only grew |
| `PodWatchers.CoverageInKernel` | controllers/pod_watcher.go:169-179 | coverage in the kernel: a link leading to the address and one return route through it, its own |
| `PodWatchers.WayBack` | pkg/founat/egress.go:50-57 | on a gateway marked as initialised the policy rule looks into the table that holds the clients' return routes |
| `Annotations.SplitJoin` | controllers/pod_watcher.go:100-104 | splitting at commas loses nothing and leaves comma-free parts |
| `Annotations.JoinSplit` | controllers/pod_watcher.go:100-104 | joining names without commas is inverted by splitting |
| `Annotations.ListedEgresses` | runners/agent.go:285-296 | an annotation that lists egresses of a namespace means those, each as often as listed, to agent and watcher alike |
| `Annotations.NothingAsked` | controllers/pod_watcher.go:74-86 | pods on the host network or without the annotation ask for nothing |
| `Annotations.ShouldHandle` | controllers/pod_watcher.go:80-107 | the loop decides acceptance for every iteration order |
| `Annotations.Expand` | runners/agent.go:285-296 | the expansion is the same collection for every iteration order |
| `Annotations.ExpansionAgreesIff` | runners/agent.go:287-296 | agent and watcher agree on every pod if and only if the egress name has no comma |
| `Agents.ReadGateway` | runners/agent.go:303-348 | from egress and service: the service's address with, in order and as often as listed, exactly the destinations of its family, or failure exactly when something cannot be read |
| `Agents.FamilyNetsMembers` | runners/agent.go:322-344 | those destinations are exactly the egress's networks of the gateway's family |
| `Agents.GetGWNets` | runners/agent.go:278-352 | every gateway serves a mentioned egress, every mentioned egress with a destination of its service's family has its gateway, in reading order; failure exactly when something mentioned cannot be read |
| `Agents.ConnectGateway` | runners/agent.go:260-273 | one gateway: tunnel then routes; skipped when the family is missing; after any failure the rules are canonical, earlier gateways stay connected and a leading part of this one's destinations is routed; all else is kept; the devices of a fault-free success |
| `Agents.SetupEgressGW` | runners/agent.go:249-276 | success: canonical rules, exactly the gateways' routes, live links; every path keeps all other rules, tables, links and the state of a family the pod lacks; without faults failure if and only if a destination repeats, the tunnel set-up is blocked or a fallback device is in the way, and success leaves the receive device of the last link created |
| `Agents.Add` | runners/agent.go:209-234 | from annotations to routes, the same for the gateways read; nothing happens for an unreadable or no gateway |
| `Agents.FlatMapReordered` | runners/agent.go:287-296 | a reordered list of names gives a reordered list of gateways and routes |
| `EndToEnd.NothingSkipped` | pkg/founat/client.go:240-250 | for every gateway the agent does not skip, all its destinations are registered, in order: the disabled-family exit is never taken |
| `EndToEnd.RoutedDestinations` | runners/agent.go:322-348 | the registered subnets are exactly the gateways' destinations, each through its gateway's link |
| `EndToEnd.TunnelLeadsToOwner` | runners/agent.go:260-273 | a packet the flat table sends into a tunnel goes to the gateway owning the longest matching destination, in its own family |
| `EndToEnd.OwnerIsReached` | runners/agent.go:260-273 | conversely the owner of an address gets its packets |
| `EndToEnd.PodRoutesFlat` | runners/agent.go:249-276 | after set-up the kernel's walk is the flat table unless a destination is one of the five exceptions |
| `EndToEnd.WalkLeadsToOwner` | runners/agent.go:249-276 | the kernel's walk reaches a device if and only if a gateway owns the address, and then that gateway's live link, when other rules were quiet before set-up |
| `EndToEnd.AddedPodReachesOwners` | runners/agent.go:209-276 | after every successful set-up a packet reaches a device if and only if an egress the pod asks for has the longest destination containing the address, private networks included, and then the live link to that egress's service |
| `EndToEnd.EntriesUnordered` | runners/agent.go:260-273 | distinctness and routes depend on the entries as a collection only |
| `EndToEnd.AnyOrderSameOutcome` | runners/agent.go:287-296 | two set-ups of a pod from one state, under any two orders of annotations: equal outcomes without faults, equal tables on success |
| `PeerOrder.SetupLeavesDevices` | runners/agent.go:260-273 | the receive devices a fault-free set-up leaves, from the order in which the egresses were read |
| `PeerOrder.AllOrdersSameDevicesIff` | runners/agent.go:287-296 | all orders leave the same receive devices if and only if the links to be created are of one family |
| `PeerOrder.OrderDecides` | pkg/founat/fou.go:206-207 | two new peers of different families: the second one added takes the receive device |
| `RoleBinding.AscendingUnique` | controllers/clusterrolebinding_controller.go:77-81 | a namespace set has one sorted listing |
| `RoleBinding.LessIff` | controllers/clusterrolebinding_controller.go:81 | the sort order: the first difference decides, a proper prefix comes first |
| `RoleBinding.ReconcileCRB` | controllers/clusterrolebinding_controller.go:61-100 | a written list has exactly the service account egress-gw of every namespace with an Egress, and nothing is written exactly when the wanted list leads the present one |
| `RoleBinding.WantedUnique` | controllers/clusterrolebinding_controller.go:72-91 | the wanted list is a function of the namespace set, not of iteration order |
| `RoleBinding.EveryNamespaceBound` | controllers/clusterrolebinding_controller.go:83-99 | afterwards every namespace with an Egress is bound |
| `RoleBinding.SecondRunIsQuiet` | controllers/clusterrolebinding_controller.go:93-95 | a second run on the same namespaces writes nothing |
| `RoleBinding.StaleBindingIff` | controllers/clusterrolebinding_controller.go:93-95 | a namespace without an Egress stays bound if and only if the wanted list leads the present one and it is bound behind it |
| `RoleBinding.StaleBindingStays` | controllers/clusterrolebinding_controller.go:93-95 | two bound namespaces, the second loses its last Egress: it stays bound |
| `RoleBinding.WantedLeadsIff` | controllers/clusterrolebinding_controller.go:83-95 | the wanted list leads the present one if and only if kind, name and namespace agree position by position; API groups are not looked at |
| `PodTemplates.CompleteGateway` | controllers/egress_controller.go:133-143 | the last container so named, or a new first one, is completed; the others keep their order |
| `PodTemplates.AddVolumes` | controllers/egress_controller.go:209-235 | "run" unless present, "modules" always |
| `PodTemplates.Deployment.ReconcilePodTemplate` | controllers/egress_controller.go:108-207 | labels and spec from the Egress alone, annotations laid over the old ones; everything the user's template asks for is there |
| `PodTemplates.Deployment.Mutate` | controllers/egress_controller.go:266-298 | labels, replicas and template; the selector only for a new object; a terminating deployment is left alone |
| `PodTemplates.Service.Mutate` | controllers/egress_controller.go:313-345 | labels and selector, unless the service is terminating |
| `PodTemplates.Controller.ReconcileDeployment` | controllers/egress_controller.go:262-307 | create or update: one mutation stored, or nothing changed, the latter exactly for a refused call |
| `PodTemplates.Controller.ReconcileService` | controllers/egress_controller.go:309-357 | the same for the service |
| `PodTemplates.Controller.UpdateStatus` | controllers/egress_controller.go:359-389 | the deployment's selector is published, or nothing changed, the latter exactly for a refused call or a missing deployment |
| `PodTemplates.Controller.Reconcile` | controllers/egress_controller.go:67-80 | deployment, service and status, continuing any run; a failure is exactly a refused call |
| `PodTemplates.SelectorNeverChanges` | controllers/egress_controller.go:279-285 | over every run from before creation, whatever others edit, remove or terminate, the deployment's selector is that of the Egress name |
| `PodTemplates.PodsMatchSelector` | controllers/egress_controller.go:126-128 | over the same runs, pod labels match the selector after every successful reconciliation, whatever labels users set |
| `PodTemplates.OneSelector` | controllers/egress_controller.go:262-389 | after a complete round deployment, service and status have one selector, and it matches the pods |
| `PodTemplates.OneSelectorInterleaved` | controllers/egress_controller.go:262-389 | with others acting between the calls: each call leaves that selector in its object, and at the end status and deployment agree |
| `PodTemplates.SelectorMeaning` | controllers/egress_controller.go:100-106 | the selector asks for program, component and the Egress by name |
| `PodTemplates.SelectsOwnPodsOnly` | controllers/egress_controller.go:117-128 | whatever labels users set, the pods of an Egress are selected by its own name and no other |
| `PodTemplates.NoCrossSelection` | controllers/egress_controller.go:262-357 | after complete rounds for two Egresses, service and deployment of one select the pods of the other if and only if they are the same |
| `PodTemplates.EditionIsDeployed` | controllers/egress_controller.go:108-207 | after a complete round replicas, labels, annotations, volumes and containers are those the last edition asks for |
| `PodTemplates.SecondRoundIsQuiet` | controllers/egress_controller.go:262-389 | a second round with the same edition changes neither deployment, service nor status |
| `PodTemplates.PastForgotten` | controllers/egress_controller.go:262-389 | two lives of an Egress that end with a round for the same edition agree on selectors, replicas, labels and spec |
| `PodTemplates.AnnotationSurvives` | controllers/egress_controller.go:111-121 | over every run, an annotation no Egress sets and nobody else touches is kept |

## Left out

- The CNI executable, the gRPC server, configuration parsing and the commands: plumbing without state.
- Reading pods, egresses and services: they are parameters, and a failed read is one of their values.
- Pod addresses that do not parse: the API server admits only valid ones.
- Networks with host bits or non-contiguous masks given to the NAT client: its only caller passes none.
- Rule selectors other than the destination, route metrics and multipath routes.
- FouTunnels.FouTunnel.SetupIPIPDevices: does not model the up state of a device, because no property depends on it.
- PodTemplates.Deployment.ReconcilePodTemplate: container defaults, environment, probes, ports and mounts are one arbitrary rewriting of the container's other fields, because they are single assignments.
- PodTemplates.Deployment.Mutate: owner references and the update strategy are not modelled, because they are copied without a decision.
- PodTemplates.Controller.UpdateStatus: the count of available replicas is not modelled, because it is copied without a decision.
- Gateways.EgressNat.Init: the gateway's policy rule is one of the settings and not in the rule list, because it selects by interface and the model's rules select by destination only.
- PodTemplates.Service.Mutate: ports and session affinity are not modelled, because they are single assignments.
- Service accounts of the gateways: created once, without a decision.
- Webhook validation of Egress fields, generated code, manifests, the installer and certificate generation.
