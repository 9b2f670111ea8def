# Verified models of the lab automation's algorithms

This project models the algorithms behind the SONiC management lab's automation and proves what they promise. Loops
that update state in place are methods and classes, each proved equal to a specification function on values; the
promises are lemmas about those functions, for every input, every run or every interleaving. `dafny verify
dfyconfig.toml` checks everything.

| area | files | modelled code |
|---|---|---|
| NUT address allocation | `Networks`, `NutSetup`, `P2pSearch`, `P2pInvariants`, `P2pTheorems`, `P2pAddresses`, `P2pOrder`, `P2pMonotone`, `P2pReusedPort`, `P2pAllocator` | subnet iterator, template setup, breadth-first link search |
| route synthesis | `Routes`, `RouteSpacing`, `RouteBlocks`, `RoutePaths`, `FibT0`, `T2Routes`, `M0Routes`, `M0Tiling`, `M0Paths` | podset/tor/subnet enumeration, disjointness, CIDR blocks, neighbour groups, T2 sets, M0/MX blocks |
| topology generation | `Topo`, `TopoProofs`, `TopoLinks`, `TopoLists`, `TopoNames`, `TopoNumbers`, `TopoAsns`, `TopoGenerator` | port loop, VM numbering, interface lists, backplane addresses, ASN counters |
| inventory and VLAN search | `LinkMap`, `VlanSearch` | bidirectional link index, reachability work list |
| recovery runner | `Recovery`, `RecoveryJobs` | jobs, tasks, server threads |
| session folders | `FolderData`, `FolderRoundTrip`, `SessionRepo` | index-file printer and parser, folder tree |
| import closure | `ImportClosure` | depth-first search with global sets |
| testbed validation | `Validator` | one pass against accumulated tables |

`Common` holds optional values, sequences read as sets, strings, numbers as text and powers of two.

## How to read it

- Addresses are unbounded integers; a network is a base, a prefix length and a width (32 or 128). Text forms of
  addresses are not modelled, except that the dotted quad and the default IPv6 pattern are shown to lose nothing.
- Nested dictionaries `device -> port -> row` become maps on link ends, with one column per address family.
- Exceptions become `ok` results or `None`; a contract says exactly when they occur.
- Files, YAML and CSV data, regular expressions and exit codes of subprocesses are parameters.
- Reachable sets are stated as the least set that holds the start and is closed under the step.

## What the code does not promise

Each of these is a lemma with a concrete input or an exact condition.

- `fib_t0`: the offset grows by the last suffix of a VM, which already contains the offset, and a tor VM at the end of a
  group yields suffix 0. With leaf VMs only, the group behind the first g starts at 2^g - 1 layout lengths
  (`FibT0.FibRoutesExactly`). Leaves of different groups then announce the same prefixes; leaves are apart exactly when a
  leaf closes a group between them (`FibT0.LeavesApartIffLeafBoundary`, `FibT0.TorAtGroupEndCollides`).
- `generate_t2_routes`: a linecard that mixes leaf and core VMs can leave core podsets unannounced; the exact condition
  is `T2Routes.CoreCoverage`. More subnets per tor than reserved let a leaf VM and a core VM announce one address, exactly
  when they do not fit below the first podset of the core VM (`T2Routes.LeafBelowCore`). A comment speaks of thirds of the
  podsets, but the bound `podset <= ceil((n - 3) / 3)` counts from podset 0, so set 0 owns no podset alone below ten
  podsets. The code is followed.
- `generate_routes`: sizes of 2^20 and more are never aligned at 192.168.0.0 (`Routes.BaseAlignment`). More subnets per
  tor than reserved make two announced cells share a prefix exactly when the next announced (podset, tor) cell is too near
  for them (`RouteSpacing.NetsDisjoint`); for plain leaves that is whenever podsets * tors exceeds 2
  (`RouteSpacing.CrowdedTorsCollide`), and a lone announced cell never collides.
- The M0 generators tile one range per M0 device exactly under a condition on base and counts (`M0Tiling.AllBlocksTile`).
  Where it fails, some address is announced twice or one before the base is announced; so without direct subnets as
  soon as a second M0 has MX subnets (`M0Tiling.NoDirectSubnetsCollide`). The docstring example of `get_next_ip_by_net`
  gives 192.168.3.0 for 192.168.0.1/24 where the code yields 192.168.1.0; the code is followed.
- `VM.__init__`: the skip of the PTF address lives in module globals. A run that begins with the global set gives the PTF's
  own address to the VM at one ip offset, and a fresh run to none (`TopoProofs.PtfHitExactly`); which configurations put a
  VM there is `TopoLinks.PtfHitFromPlain` and `TopoLinks.PtfHitFromLag`. The script calls
  `generate_topo` once per process (ansible/generate_topo.py:720-723), so this needs a script that imports the
  module and calls it twice; `TopoProofs.SecondCallHitsPtf` has such a configuration.
- `DeviceLinkMap`: the index is an involution exactly when the rows agree on each link (`LinkMap.InvolutionIffRowsAgree`). A
  row that takes a port from a different earlier one, which still holds its other end, breaks it
  (`LinkMap.ReusedPortBreaks`); a row listed again, in either direction, does not (`LinkMap.RepeatedRowKeeps`).
- `SecureCRTRepoFolderData.save`: a name that sorts first and starts with a blank is not read back
  (`FolderRoundTrip.BlankFirstLost`); the flag's key and line end are each written on one branch only, which still parses.
- `generate_topo` also keeps its ASN counters in the global role configuration: a second call in one process goes on
  counting, so its VMs of a role with an increment share no ASN with those of the first (`TopoAsns.SecondCallContinues`).
- `_allocate_p2p_ip`: a step raises the duplicate-link error exactly when its near end is unrecorded and its peer recorded
  (`P2pReusedPort.StepRaisesExactly`). Two pooled ends that share a far port, and to which nothing but that port leads,
  make every run raise that visits both devices (`P2pReusedPort.SharedPortRaises`); without pools nothing is recorded and
  no table raises it (`P2pReusedPort.NoPoolsNoDuplicate`). Otherwise the order of visiting can decide: one table raises or
  not with the order of its two generators (`P2pReusedPort.OrderDecides`).
  The docstring says every link has its own subnet; a snake link draws two and keeps one.
- `VM.__init__`: two VMs of a run share a name exactly when they share the number and their roles differ in letter case
  only (`TopoNames.ShareNameExactly`); `TopoNames.CaseOnlyRolesShareName` is such a run. The roles in `roles_cfg`
  (ansible/generate_topo.py:53-76) are lower case and start with a letter, so with them names are unique.
- Overlapping pools hand out overlapping subnets (`Networks.PoolsCollideIffOverlap`).

## Model

| member | source | states |
|---|---|---|
| `Networks.SubnetInside` | ansible/library/nut_allocate_ip.py:155-161 | every child of a pool is a valid CIDR block inside the pool |
| `Networks.SubnetsTile` | ansible/library/nut_allocate_ip.py:155-170 | the children of a pool tile it: each address lies in exactly one child |
| `Networks.PoolsCollideIffOverlap` | ansible/library/nut_allocate_ip.py:232-260 | two pools hand out overlapping children at some positions if and only if the pools overlap |
| `P2pAllocator.IPAllocator.Skip` | ansible/library/nut_allocate_ip.py:153-161 | the start offset is refused exactly when it exceeds the number of children |
| `P2pAllocator.IPAllocator.Allocate` | ansible/library/nut_allocate_ip.py:163-170 | each call yields the next child until the network is used up, and then raises |
| `NutSetup.FirstMatch` | ansible/library/nut_allocate_ip.py:216-224 | the first matching template is found, and none is found only if none matches |
| `NutSetup.FirstMatchIsFirst` | ansible/library/nut_allocate_ip.py:216-224 | and no template before it matches |
| `NutSetup.AsnsByPosition` | ansible/library/nut_allocate_ip.py:307-338 | the ASN of a device is its template's base plus its position in its own list times the step, which is 1 if not given |
| `NutSetup.LoopbacksByPosition` | ansible/library/nut_allocate_ip.py:275-305 | a DUT takes the host number position + 1 of each of its loopback pools, and its router id from the router pool or else the IPv4 loopback pool |
| `NutSetup.PoolsByTemplate` | ansible/library/nut_allocate_ip.py:226-263 | in the search a generator is served from its template's pools and a DUT from the pools of the template it matches, each family from its own |
| `NutSetup.HostsDiffer` | ansible/library/nut_allocate_ip.py:284-305 | hosts taken at different positions of one pool or from disjoint pools differ, and are never the network address |
| `NutSetup.LoopbacksDistinct` | ansible/library/nut_allocate_ip.py:275-305 | DUTs never share a loopback or router id when the pools they draw from are equal or disjoint |
| `NutSetup.LoopbackPoolLasts` | ansible/library/nut_allocate_ip.py:275-305 | a shared loopback pool serves all DUTs exactly when it has more addresses than DUTs |
| `NutSetup.SetupReady` | ansible/library/nut_allocate_ip.py:191-210 | where setup does not raise, every testbed device has an ASN and the search may start |
| `P2pAllocator.AddPool` | ansible/library/nut_allocate_ip.py:232-236 | a pool gets one allocator, shared by all devices with an equal CIDR |
| `P2pAllocator.BuildPools` | ansible/library/nut_allocate_ip.py:226-263 | devices are served from the pool of their template, traffic generators from theirs, all iterators at the start |
| `P2pAllocator.TakeHost` | ansible/library/nut_allocate_ip.py:284-300 | skipping index + 1 children and taking one yields that host, or raises exactly when it does not exist |
| `P2pAllocator.TakeLoopbacks` | ansible/library/nut_allocate_ip.py:275-305 | loopbacks and router id of a DUT, with the branch that falls back to the IPv4 loopback, and every way to raise |
| `P2pAllocator.GenerateDeviceConfig.Prepare` | ansible/library/nut_allocate_ip.py:212-263 | preparation fails exactly when a DUT has no template, and otherwise leaves fresh, separate allocators per family |
| `P2pAllocator.GenerateDeviceConfig.SetUpDut` | ansible/library/nut_allocate_ip.py:200-204 | one DUT gets loopbacks and ASN by its position, or setup raises |
| `P2pAllocator.GenerateDeviceConfig.SetUpDuts` | ansible/library/nut_allocate_ip.py:195-205 | the loop over DUTs finishes exactly when each of them can be set up |
| `P2pAllocator.GenerateDeviceConfig.SetUpTgs` | ansible/library/nut_allocate_ip.py:207-208 | traffic generators get ASNs by position if the template has a base |
| `P2pAllocator.GenerateDeviceConfig.SetUp` | ansible/library/nut_allocate_ip.py:191-209 | everything before the search: completes if and only if nothing raises, with the pools, loopbacks and ASNs of the templates |
| `P2pAllocator.GenerateDeviceConfig.Run` | ansible/library/nut_allocate_ip.py:191-210 | the whole run completes exactly when setup does not raise and the search neither fails nor exhausts a pool; its tables are those of the search |
| `P2pAllocator.TakePair` | ansible/library/nut_allocate_ip.py:407-412 | one draw from the near device's pool, refused exactly when its capacity is used up |
| `P2pAllocator.GenerateDeviceConfig.DrawBoth` | ansible/library/nut_allocate_ip.py:407-450 | one subnet per family of the near device, IPv4 first, written to both interfaces |
| `P2pAllocator.GenerateDeviceConfig.AddressLink` | ansible/library/nut_allocate_ip.py:387-465 | for a peer device with a link table, the same draws fill the interface tables and the rows of both ends, host 1 near and host 2 far |
| `P2pAllocator.GenerateDeviceConfig.RecordLink` | ansible/library/nut_allocate_ip.py:472-498 | both ends are recorded as BGP ports and neighbours when a pool paid, and the peer device is queued once |
| `P2pAllocator.GenerateDeviceConfig.OpenLink` | ansible/library/nut_allocate_ip.py:387-498 | the rest of the loop body for such a link, raising exactly when a pool of the near device is used up |
| `P2pAllocator.GenerateDeviceConfig.VisitLink` | ansible/library/nut_allocate_ip.py:367-498 | one pass of the inner loop refines one step of the state machine, raising exactly where that step errs (a recorded peer, or a peer device without a link table) or overdraws a pool |
| `P2pAllocator.GenerateDeviceConfig.VisitLinks` | ansible/library/nut_allocate_ip.py:367-498 | the inner loop over the ports of a device refines the machine; the order of the ports shows in P2pOrder.SubnetsInOrder |
| `P2pAllocator.GenerateDeviceConfig.AllocateP2pIp` | ansible/library/nut_allocate_ip.py:340-498 | the search completes if and only if the machine ends without error and no pool is charged past its capacity; the tables are then the machine's, whose subnets P2pOrder.SubnetsInOrder tells link by link |
| `P2pSearch.VisitPortQueue` | ansible/library/nut_allocate_ip.py:495-498 | a step leaves the work list alone or appends one unseen testbed device |
| `P2pSearch.VisitDeviceWorkList` | ansible/library/nut_allocate_ip.py:360-363 | each pass visits a device not visited before, which is why the loop ends |
| `P2pInvariants.NeverDuplicate` | ansible/library/nut_allocate_ip.py:381-385 | on an involutive link table the duplicate-link error cannot be raised: a peer is recorded only with its near end |
| `P2pInvariants.AssignKeepsAddressed` | ansible/library/nut_allocate_ip.py:407-450 | paying for a link keeps addressed ends paired and children unshared, also when a snake link is overwritten |
| `P2pInvariants.VisitPortKeeps` | ansible/library/nut_allocate_ip.py:367-498 | every step keeps the whole invariant: work list, payers, mirrored sessions, paired addresses, neighbour table |
| `P2pTheorems.SearchKeeps` | ansible/library/nut_allocate_ip.py:360-498 | every run of the loop keeps it too, together with the rule that the first visited pooled end pays |
| `P2pTheorems.VisitsExactlyReachable` | ansible/library/nut_allocate_ip.py:352-370 | the loop ends without error having visited, once each, exactly the devices reachable from the traffic generators |
| `P2pOrder.VisitedInOrderOfDiscovery` | ansible/library/nut_allocate_ip.py:352-363 | the traffic generators are visited first, as listed, and every other device in the order in which the ends of visited devices lead to it |
| `P2pTheorems.RecordsExactly` | ansible/library/nut_allocate_ip.py:467-474 | the recorded BGP ports are exactly the non-snake in-testbed ends of visited devices where one end owns a pool |
| `P2pTheorems.MirrorsAtEveryStep` | ansible/library/nut_allocate_ip.py:397-435 | a recorded port's peer is recorded with swapped addresses and the other end's ASN, at every step |
| `P2pInvariants.NewRowsKept` | ansible/library/nut_allocate_ip.py:397-474 | the rows that a link's own draws fill agree with the interfaces, also for a family without a pool |
| `P2pTheorems.SessionsCarryInterfaceAddresses` | ansible/library/nut_allocate_ip.py:414-435 | at every step the addresses copied into the rows are those of the interfaces, and each row has one in some family |
| `P2pTheorems.SessionsMirror` | ansible/library/nut_allocate_ip.py:397-474 | after a run the BGP table is closed under the link involution |
| `P2pTheorems.NeighboursExactly` | ansible/library/nut_allocate_ip.py:476-494 | one device lists another as neighbour exactly when a pooled link joins them |
| `P2pAddresses.ChargedExactly` | ansible/library/nut_allocate_ip.py:407-409 | the ends that paid are exactly those the visiting order determines |
| `P2pAddresses.AddressedExactly` | ansible/library/nut_allocate_ip.py:407-450 | an interface has an address of a family exactly when the paying end of its link has a pool of that family |
| `P2pAddresses.ChildrenApart` | ansible/library/nut_allocate_ip.py:155-170 | different children of equal or disjoint pools share no address |
| `P2pAddresses.LinkEndsShareOneSubnet` | ansible/library/nut_allocate_ip.py:407-460 | the ends of every addressed link hold hosts 1 and 2 of one aligned four-address block of the paying pool |
| `P2pOrder.SubnetsInOrder` | ansible/library/nut_allocate_ip.py:360-450 | a link gets the child subnet whose number is the number of paying ends of the same pool that stand before its own, by order of visiting and then of the port table; host 1 near, host 2 far, in each family; a snake link keeps the one of its later end |
| `P2pAddresses.InterfaceAddressesDistinct` | ansible/library/nut_allocate_ip.py:340-498 | all interface addresses are pairwise distinct and links share no block, although snake links are addressed twice |
| `P2pAddresses.DrawsConserved` | ansible/library/nut_allocate_ip.py:407-470 | with pools everywhere, draws number the links between visited devices plus one per snake-link end |
| `P2pAddresses.ChargesPerPool` | ansible/library/nut_allocate_ip.py:407-440 | each pool is charged one child per paying end whose device owns it |
| `P2pMonotone.SearchGrows` | ansible/library/nut_allocate_ip.py:360-498 | a run never gives subnets back and an error is final, so raising early is the same verdict |
| `P2pReusedPort.StepRaisesExactly` | ansible/library/nut_allocate_ip.py:367-395 | pools permitting, one pass of the inner loop raises if and only if the near end is unrecorded and its peer is recorded or belongs to a device without a link table, and with which error |
| `P2pReusedPort.SharedPortRaises` | ansible/library/nut_allocate_ip.py:340-498 | two pooled ends that share a far port, to which nothing but that port leads, make every run raise that visits both devices |
| `P2pReusedPort.NoPoolsNoDuplicate` | ansible/library/nut_allocate_ip.py:467-474 | without pools no link is recorded and no table raises the duplicate-link error |
| `P2pReusedPort.ReusedPortRaises` | ansible/library/nut_allocate_ip.py:377-385 | an example: the run on a three-port table and the error it ends with |
| `P2pReusedPort.OrderDecides` | ansible/library/nut_allocate_ip.py:352-385 | two testbeds that differ in the order of their generators only: one run completes, the other raises |
| `Routes.GenerateRoutes` | ansible/library/announce_routes.py:375-498 | the three nested loops yield the default routes and then the networks of the included positions, and the last suffix used; RoutePaths tells what each route says |
| `Routes.OctetsSpellSuffix` | ansible/library/announce_routes.py:458-464 | the octets spell 192.168.0.0 + suffix, a legal address exactly while the sum stays below 2^32 |
| `Routes.PatternInjective` | ansible/library/announce_routes.py:468-469 | the default IPv6 pattern is injective on legal suffixes |
| `Routes.FloorLog2OfPow2` | ansible/library/announce_routes.py:464 | the prefix length of a power-of-two size is exact |
| `Routes.NetsExactly` | ansible/library/announce_routes.py:396-496 | a route is announced if and only if an included position yields it |
| `RoutePaths.NetsSpell` | ansible/library/announce_routes.py:375-498 | a route is announced if and only if some position of the router's is spelled by its address, prefix length, next hop and AS path: tor and podset can be read off the last ASNs, the spine stands first exactly for plain and M0 leaves of podsets past 0, core paths end in the RA's ASN and tor routes have no path |
| `RoutePaths.DefaultsSpell` | ansible/library/announce_routes.py:383-391 | which default routes are announced, and their uplink path by router type |
| `RoutePaths.IncludedTold` | ansible/library/announce_routes.py:400-456 | which positions are announced, by router type, topology and set |
| `RouteSpacing.DisjointIffCellsApart` | ansible/library/announce_routes.py:396-496 | the prefixes of one call are pairwise disjoint if and only if any two announced (podset, tor) cells are far enough apart for the subnets of the first |
| `RouteSpacing.NearCellsCollide` | ansible/library/announce_routes.py:458-471 | two announced cells that are too near announce one and the same prefix |
| `RouteSpacing.LeastDistanceDecides` | ansible/library/announce_routes.py:458-460 | the least distance of announced cells decides |
| `RouteSpacing.ApartIffRoomy` | ansible/library/announce_routes.py:400-456 | the condition in closed form for every router type, topology and set |
| `RouteSpacing.NetsDisjoint` | ansible/library/announce_routes.py:396-496 | disjoint, and ascending, if and only if every announced cell has room for its subnets: no bound on the inputs |
| `RouteSpacing.NetsPastOffset` | ansible/library/announce_routes.py:458-460 | no prefix lies before the offset |
| `RouteSpacing.CrowdedTorsCollide` | ansible/library/announce_routes.py:444-460 | for plain and M0 leaves: disjoint if and only if tor_subnet_number <= max_tor_subnet_number or podsets * tors <= 2 |
| `RouteBlocks.NetBlock` | ansible/library/announce_routes.py:464-467 | the block that the announced prefix length denotes has the subnet size and a start that the offset alone shifts |
| `RouteBlocks.BlockStartsAtPrefix` | ansible/library/announce_routes.py:461-467 | that block starts at its announced address if and only if the offset is a multiple of the size, up to sizes of 2^19 |
| `RouteBlocks.NetBlocksDisjoint` | ansible/library/announce_routes.py:396-496 | the announced CIDR blocks of one call are pairwise disjoint under exactly the same condition |
| `RouteBlocks.GroupBlocksDisjoint` | ansible/library/announce_routes.py:549-594 | two leaf VMs announce CIDR blocks that do not overlap if and only if a leaf closes a group between them |
| `Routes.PrefixesAligned` | ansible/library/announce_routes.py:458-471 | a prefix is aligned to its size if and only if the enumeration's first address is |
| `Routes.BaseAlignment` | ansible/library/announce_routes.py:461-464 | 192.168.0.0 is aligned to 2^k exactly for k <= 19 |
| `FibT0.VmRow` | ansible/library/announce_routes.py:562-590 | what one VM announces for both families, and the suffix left behind |
| `FibT0.FibRoutes` | ansible/library/announce_routes.py:549-594 | the loop over VMs collects their rows; FibT0.FibRoutesExactly tells what each holds |
| `FibT0.RowAt` | ansible/library/announce_routes.py:549-594 | the row of each VM holds its routes from the offset that the groups before it leave |
| `FibT0.LeafFinal` | ansible/library/announce_routes.py:444-460 | a leaf call returns the suffix of the last position, past the offset |
| `FibT0.TorSilent` | ansible/library/announce_routes.py:446-456 | a tor VM without tor index announces nothing and leaves suffix 0 |
| `FibT0.LeafRange` | ansible/library/announce_routes.py:444-460 | all prefixes of a leaf lie past its offset and up to its last suffix: tor 0 of podset 0 is skipped |
| `FibT0.OffsetGrows` | ansible/library/announce_routes.py:591-594 | the offset stands still until a leaf closes a group, and then passes everything announced before |
| `FibT0.LeavesApartIffLeafBoundary` | ansible/library/announce_routes.py:549-594 | two leaves announce disjoint prefixes if and only if a leaf closes a group between them, and otherwise the same routes |
| `FibT0.InFirstGroups` | ansible/library/announce_routes.py:591-594 | the first g groups hold exactly the first ceil(g * VMs / groups) VMs |
| `FibT0.BoundaryExactly` | ansible/library/announce_routes.py:591-594 | a group ends behind a VM exactly where that many VMs are a whole number of shares, rounded up |
| `FibT0.GroupSizes` | ansible/library/announce_routes.py:591-594 | the groups take up all VMs and differ in size by at most one; none is empty unless there are fewer VMs than groups |
| `FibT0.FibRoutesExactly` | ansible/library/announce_routes.py:549-594 | with all-leaf VMs and at least one for each group, a VM of the group behind the first g announces the layout from 2^g - 1 layout lengths on |
| `FibT0.FibRoutesLone` | ansible/library/announce_routes.py:549-594 | and with at least as many groups as VMs, VM i does so from 2^i - 1 lengths on |
| `RoutePaths.LeafNetsSpell` | ansible/library/announce_routes.py:549-594 | the networks of a leaf VM, route by route: every position but tor 0 of podset 0, from the start of its group |
| `RoutePaths.LeafDefaultsSpell` | ansible/library/announce_routes.py:549-594 | the default routes of a leaf VM |
| `RoutePaths.TorVmSilent` | ansible/library/announce_routes.py:549-594 | a tor VM announces nothing in any family |
| `FibT0.NeighbourGroups` | ansible/library/announce_routes.py:549-594 | with all-leaf VMs, two VMs announce disjoint prefixes if and only if one stands before and one behind a whole number of shares of the VMs, rounded up, and otherwise the same rows, for any number of groups |
| `FibT0.ApartNetworksDiffer` | ansible/library/announce_routes.py:468-469 | prefixes apart in IPv4 are different IPv6 networks |
| `FibT0.TorAtGroupEndCollides` | ansible/library/announce_routes.py:591-594 | a tor VM closing a group makes two groups announce the same |
| `T2Routes.GenerateT2` | ansible/library/announce_routes.py:1394-1444 | each VM of a linecard announces what its set and role say |
| `T2Routes.SetsSplitAtThird` | ansible/library/announce_routes.py:1394-1407 | of several VMs the first third, rounded up, is set 0 and the rest set 1 |
| `T2Routes.RowSpells` | ansible/library/announce_routes.py:1394-1444 | the networks of a VM, route by route: address, length, next hop and AS path of each position of the podsets that its role and set own |
| `T2Routes.DefaultsFromCore` | ansible/library/announce_routes.py:383-391 | core VMs announce the default route of the family, leaf VMs none, other VMs nothing |
| `T2Routes.CoreThirds` | ansible/library/announce_routes.py:405-418 | which core podsets each set announces, by thirds counted from podset 0 |
| `T2Routes.PodsetDecides` | ansible/library/announce_routes.py:400-435 | in this topology only the podset decides whether a position is announced |
| `T2Routes.RowHasAnnounced` | ansible/library/announce_routes.py:400-471 | the networks of a VM are exactly the positions of the podsets it announces |
| `T2Routes.CoveredBySets` | ansible/library/announce_routes.py:400-435 | a podset is announced exactly when a set that announces it holds a VM of the role |
| `T2Routes.CoreCoverage` | ansible/library/announce_routes.py:400-418 | all core podsets are announced if and only if the sets that own a podset alone hold a core VM |
| `T2Routes.SetsOwnCorePodsets` | ansible/library/announce_routes.py:405-418 | which core podsets each set owns alone, from how many podsets on |
| `T2Routes.LeafCoverage` | ansible/library/announce_routes.py:424-435 | podsets 0 to 2 are all announced if and only if both sets hold a leaf |
| `T2Routes.UniformLinecardCovers` | ansible/library/announce_routes.py:1394-1407 | a linecard of one role covers that role's podsets for every number of VMs |
| `T2Routes.MixedLinecardMisses` | ansible/library/announce_routes.py:1394-1407 | a mixed linecard misses podset 3 |
| `T2Routes.FirstCoreAnnounced` | ansible/library/announce_routes.py:400-418 | the first core podset that each set announces |
| `T2Routes.LeafBelowCore` | ansible/library/announce_routes.py:400-460 | leaf and core VMs of a linecard announce disjoint prefixes, the leaf's below the core's, if and only if the subnets of a tor fit below that podset |
| `M0Routes.GenerateSubnetRoutes` | ansible/library/announce_routes.py:897-915 | direct subnets stand one after the other from the base offset |
| `M0Routes.GenerateMxRoutes` | ansible/library/announce_routes.py:918-943 | MX subnets stand one after the other across all MX devices |
| `M0Paths.MxRoutesTell` | ansible/library/announce_routes.py:918-943 | every MX route is a subnet of some MX device, at its place, with a path that ends in that device's ASN behind the M0's |
| `M0Paths.MxRoutesInOrder` | ansible/library/announce_routes.py:918-943 | the k-th route is the k-th subnet counted over all MX devices, so none is missing |
| `M0Routes.GenerateDeviceRoutes` | ansible/library/announce_routes.py:322-335 | one M0: its direct subnets, then its MX subnets from the next address on |
| `M0Routes.GenerateUpstreamDevice` | ansible/library/announce_routes.py:316-335 | the offset the loops compute is one range per device passed; the DUT itself announces nothing |
| `M0Routes.GenerateUpstreamRoutes` | ansible/library/announce_routes.py:299-337 | the M1 routes: the default route and the ranges of all other M0 devices |
| `M0Paths.UpstreamPaths` | ansible/library/announce_routes.py:299-337 | an upstream route is the default route, without a path, or a subnet of another M0 device's range whose path begins with that device's ASN |
| `M0Routes.GenerateDownstreamRoutes` | ansible/library/announce_routes.py:340-359 | an MX VM announces its own subnets behind the direct ones |
| `M0Paths.DownstreamTells` | ansible/library/announce_routes.py:340-359 | the k-th downstream route is the MX VM's k-th subnet behind all direct ones, without a path |
| `M0Routes.GetNextIp` | ansible/library/announce_routes.py:769-789 | the next address is past every given network and right behind one of them |
| `M0Tiling.AlignedPrefix` | ansible/library/announce_routes.py:292-296 | an aligned prefix denotes the block that starts at its own address |
| `M0Tiling.ChainTiles` | ansible/library/announce_routes.py:299-359 | adjacent blocks cover each address of their range exactly once |
| `M0Tiling.DeviceChain` | ansible/library/announce_routes.py:322-335 | an aligned M0 fills exactly its own range |
| `M0Tiling.UpstreamChain` | ansible/library/announce_routes.py:313-335 | the upstream devices fill adjacent ranges behind the DUT's |
| `M0Tiling.UpstreamCount` | ansible/library/announce_routes.py:299-337 | there are 1 + (colos * m0s - 1) * (m0 subnets + mxs * mx subnets) upstream routes |
| `M0Tiling.UnalignedPrefix` | ansible/library/announce_routes.py:292-296 | a prefix that is not aligned reaches back to the address before its own |
| `M0Tiling.AllBlocksTile` | ansible/library/announce_routes.py:299-359 | DUT subnets, MX downstream blocks and M1 upstream blocks tile one range per M0, each address in exactly one block and no other in any, if and only if base and counts let each block stand behind the one before it |
| `M0Tiling.AllBlocksChain` | ansible/library/announce_routes.py:299-359 | under the same condition, and only then, they are adjacent in the order in which they are announced |
| `M0Tiling.AllBlocksInRange` | ansible/library/announce_routes.py:299-359 | aligned or not, no announced block passes the end of the range |
| `M0Tiling.NoDirectSubnetsCollide` | ansible/library/announce_routes.py:328-333 | without direct subnets tiling fails exactly when a second M0 has MX subnets |
| `M0Tiling.UnalignedCollides` | ansible/library/announce_routes.py:292-335 | sizes that do not fit each other tile for one M0 and for no larger number |
| `TopoGenerator.Generator.NewBackplanes` | ansible/generate_topo.py:265-289 | the backplane addresses with skip, wrap-around and range assertion, and the globals afterwards |
| `TopoGenerator.Generator.AddVm` | ansible/generate_topo.py:566-589 | a VM is counted, given its ASNs, made and listed |
| `TopoGenerator.Generator.OpenLink` | ansible/generate_topo.py:573-608 | one link becomes a VM, a host interface, a disabled interface or nothing, and its role is counted or not as continuous names ask |
| `TopoGenerator.Generator.OpenPlain` | ansible/generate_topo.py:573-609 | a port without LAG handles its links one by one |
| `TopoGenerator.Generator.OpenLag` | ansible/generate_topo.py:547-571 | a LAG becomes one VM over all its links and is not opened again |
| `TopoGenerator.Generator.OpenPort` | ansible/generate_topo.py:500-609 | one pass of the port loop refines the machine, raising exactly where it fails |
| `TopoGenerator.Generator.GenerateTopo` | ansible/generate_topo.py:467-611 | the whole call refines the machine from whatever the globals and ASN counters were; TopoNumbers tells the VM numbers, TopoLists the interface lists |
| `TopoProofs.LinkIdsUnique` | ansible/generate_topo.py:500-609 | each link id belongs to at most one VM, host interface or disabled interface, in ascending order |
| `TopoProofs.VmsNumbered` | ansible/generate_topo.py:224-245 | VM offsets are list positions, ip offsets ascend, and no two VMs share role and number |
| `TopoNumbers.NumberOfPlainVm` | ansible/generate_topo.py:573-592 | without continuous names, the number of a VM on a plain port is the number of plain link ids of its role up to and including its own, also those that open no VM, plus the role's LAGs before it |
| `TopoNumbers.NumberOfLagVm` | ansible/generate_topo.py:547-556 | and a LAG counts as one |
| `TopoNumbers.ContinuousNumbers` | ansible/generate_topo.py:573-592 | with continuous names a number is one plus the number of earlier VMs of the role |
| `TopoNames.NameDetermines` | ansible/generate_topo.py:241 | for roles that start with a letter the name text determines the number and the role in upper case |
| `TopoNames.ShareNameExactly` | ansible/generate_topo.py:224-245 | two VMs of a run share a name if and only if they share the number and their roles differ in letter case only |
| `TopoNames.VmNamesDistinct` | ansible/generate_topo.py:224-245 | all VM names of a run are unique as text unless two of its roles do |
| `TopoNames.CaseOnlyRolesShareName` | ansible/generate_topo.py:241 | a run in which two VMs have one name |
| `TopoProofs.InterfaceAddressesDistinct` | ansible/generate_topo.py:202-263 | the address pairs and loopbacks of two VMs never meet |
| `TopoProofs.AddressesSpelled` | ansible/generate_topo.py:204-263 | the addresses of a VM in the usual notation |
| `TopoProofs.BackplaneInRange` | ansible/generate_topo.py:265-289 | each VM's backplane address lies inside 10.10.244.1-10.10.247.254, also after wrapping |
| `TopoProofs.BackplanesDistinct` | ansible/generate_topo.py:265-289 | no two VMs of a run share a backplane address, whatever the globals were |
| `TopoProofs.PtfHitExactly` | ansible/generate_topo.py:265-289 | a VM of a run gets the PTF address if and only if the run began with the global set and the VM stands at one ip offset; a fresh run gives it to none |
| `TopoProofs.GlobalsLeft` | ansible/generate_topo.py:265-289 | the globals a run leaves behind are 0 or 1 and never go back |
| `TopoProofs.SecondCallHitsPtf` | ansible/generate_topo.py:467-611 | a configuration whose first run is clean and whose second run in the same process hands out the PTF address |
| `TopoProofs.RangeExhaustedExactly` | ansible/generate_topo.py:276-283 | the range assertion fails exactly from ip offset 1021 on, one earlier after the skip |
| `TopoLinks.LinksServedExactly` | ansible/generate_topo.py:573-609 | in every finished run each link id of a port without LAG carries a VM, a host interface, a disabled interface or nothing exactly as the port's role, step and skips say |
| `TopoLinks.LagServedExactly` | ansible/generate_topo.py:547-571 | each link id of a LAG belongs to a VM, which opens at the first one, and to nothing else |
| `TopoLinks.FindLagFirst` | ansible/generate_topo.py:475-483 | a port's LAG is the first entry that holds the port |
| `TopoLists.ServedByKind` | ansible/generate_topo.py:500-609 | the same by configuration: uplink before peer before fabric before downlink, each with its own role, breakout and step |
| `TopoLists.PlainVmIsLone` | ansible/generate_topo.py:573-592 | a VM on a plain port stands over its link alone, with the role's number of LAGs |
| `TopoLists.LagSpan` | ansible/generate_topo.py:547-571 | a LAG takes up the links of all its ports at the breakout last set, goes to one VM over just these, and all its ports are done |
| `TopoLists.ListsExactly` | ansible/generate_topo.py:556-609 | uplink and downlink lists hold the VMs of their role in order, and tor numbers count downlink VMs from 1 |
| `TopoLinks.PtfHitFromPlain` | ansible/generate_topo.py:265-289 | a run hands out the PTF address from a plain port if and only if it began with the global set and that port opens a VM at link 251, or 252 for IPv6 |
| `TopoLinks.PtfHitFromLag` | ansible/generate_topo.py:265-289 | and from a LAG if and only if the LAG starts at that link |
| `TopoAsns.AsnsByPosition` | ansible/generate_topo.py:551-592 | the n-th VM of a role has the role's ASNs plus n increments, and the counters are left behind the last one |
| `TopoAsns.AsnsDistinctExactly` | ansible/generate_topo.py:551-592 | two VMs of a role share an ASN if and only if the increment is 0 |
| `TopoAsns.SecondCallContinues` | ansible/generate_topo.py:53-76 | VMs of two calls in one process share an ASN if and only if the increment is 0 |
| `TopoProofs.VisitPortKeeps` | ansible/generate_topo.py:500-609 | every pass of the port loop keeps links, names, addresses and interfaces exclusive |
| `LinkMap.ParseVlanRanges` | ansible/devutil/device_inventory.py:79-89 | a VLAN column is rejected exactly for malformed parts, and each range holds the inclusive numbers |
| `LinkMap.Put` | ansible/devutil/device_inventory.py:137-140 | storing a link changes the entry of its start port and nothing else |
| `LinkMap.DeviceLinkMap.AddLink` | ansible/devutil/device_inventory.py:137-145 | a link is stored in both directions, the reverse one with the ends exchanged and nothing else |
| `LinkMap.DeviceLinkMap.LoadRows` | ansible/devutil/device_inventory.py:119-132 | the index after reading all rows |
| `LinkMap.StoredExactly` | ansible/devutil/device_inventory.py:119-145 | a port is in the index exactly when some row touches it |
| `LinkMap.LastRowStored` | ansible/devutil/device_inventory.py:137-145 | a port ends up with the link of the last row that touches it |
| `LinkMap.InvolutionIffRowsAgree` | ansible/devutil/device_inventory.py:102-145 | the index is an involution, with equal bandwidth and VLANs both ways, if and only if each row that decides one end decides the other, up to repetitions |
| `LinkMap.LoadIsInvolution` | ansible/devutil/device_inventory.py:102-145 | in particular when every port occurs in one row |
| `LinkMap.ReusedPortBreaks` | ansible/devutil/device_inventory.py:137-145 | a row that takes a port from a different earlier row, still last at its other end, breaks it |
| `LinkMap.RepeatedRowKeeps` | ansible/devutil/device_inventory.py:137-145 | a repeated row reuses its ports and breaks nothing |
| `LinkMap.EndsHaveTables` | ansible/devutil/device_inventory.py:137-148 | every end device of a stored link has a link table, whatever the rows |
| `VlanSearch.HasDutVlan` | ansible/devutil/testbed.py:161-170 | the nested loops decide whether a link carries a DUT VLAN |
| `VlanSearch.CarriesIffRangesMeet` | ansible/devutil/testbed.py:145-170 | testing flattened VLAN numbers agrees with interval overlap |
| `VlanSearch.DutVlansAre` | ansible/devutil/testbed.py:145-149 | the collected VLANs are those on any link of the DUT |
| `VlanSearch.CarriesIffShares` | ansible/devutil/testbed.py:145-170 | a link is followed if and only if it shares a VLAN with some link of the DUT |
| `VlanSearch.KindsByType` | ansible/devutil/testbed.py:185-201 | which device type makes which kind of node, and which is unknown |
| `VlanSearch.Expand` | ansible/devutil/testbed.py:158-182 | one device's links are followed, raising exactly at an unknown device |
| `VlanSearch.Search` | ansible/devutil/testbed.py:151-182 | the work list ends with each reachable device once, never the DUT, or raises exactly when an unknown device is reachable |
| `VlanSearch.LoadedEndsListed` | ansible/devutil/testbed.py:159-160 | the search never dereferences a missing link table |
| `VlanSearch.TestBed.FillNodes` | ansible/devutil/testbed.py:185-201 | nodes are sorted by device type, raising exactly at an unknown type |
| `VlanSearch.TestBed.LinkDutRelatedDevices` | ansible/devutil/testbed.py:139-206 | the whole method: node tables hold, by kind, exactly the devices that links lead to which share a VLAN with some link of the DUT, and the console |
| `Recovery.StepKeeps` | ansible/recover_server.py:180-193 | every step of a thread keeps what it recorded equal to what is expected |
| `Recovery.StepProgresses` | ansible/recover_server.py:180-193 | each step brings an unfinished thread nearer to its end |
| `Recovery.TaskReturnsExactlyIfItRuns` | ansible/recover_server.py:236-246 | in every interleaving a task returns iff earlier tasks of its job returned 0 and no earlier job was fatal |
| `Recovery.EnoughTurnsFinish` | ansible/recover_server.py:248-258 | a thread that gets enough turns finishes, whatever the others do |
| `Recovery.InterleavingsAgree` | ansible/recover_server.py:268-319 | any two complete interleavings yield the same codes, such as one server after another |
| `Recovery.TestbedsIndependent` | ansible/recover_server.py:180-246 | a testbed depends on the server-wide jobs only: no other testbed's failure stops it |
| `Recovery.PreliminariesRun` | ansible/recover_server.py:180-246 | the server-wide jobs: cleanup always runs if asked for, and the VMs start unless a cleanup failed |
| `RecoveryJobs.Task.Call` | ansible/recover_server.py:67-84 | a task sets its return code outside dry run |
| `RecoveryJobs.Job.RunTasks` | ansible/recover_server.py:187-191 | tasks run in order up to the first that fails |
| `RecoveryJobs.Job.Call` | ansible/recover_server.py:180-193 | a job raises exactly when it is fatal, and each task shows whether it was reached |
| `RecoveryJobs.RunJobInList` | ansible/recover_server.py:236-240 | running one job leaves all others alone |
| `RecoveryJobs.DoJobs` | ansible/recover_server.py:236-246 | one server's loop leaves exactly the codes the interleaved machine expects |
| `RecoveryJobs.JoinAll` | ansible/recover_server.py:248-258 | joining returns in the first round in which every thread has finished |
| `FolderData.ParseIni` | ansible/devutil/ssh_session_repo.py:263-278 | the line loop computes the parse of the file |
| `FolderRoundTrip.ParsedExactly` | ansible/devutil/ssh_session_repo.py:263-278 | from any file: each list comes from the last line of its key, the flag from the last flag line, and parsing raises exactly at a flag line that is no number |
| `FolderRoundTrip.FlagIsNumber` | ansible/devutil/ssh_session_repo.py:277-278 | the flag is set if and only if its number is not 0 |
| `FolderData.SortNames` | ansible/devutil/ssh_session_repo.py:307-311 | names are written sorted and complete |
| `FolderData.Save` | ansible/devutil/ssh_session_repo.py:304-317 | the file text, with the precedence quirk of the flag |
| `FolderRoundTrip.TextSpelled` | ansible/devutil/ssh_session_repo.py:304-317 | the file letter by letter: which key stands in front of which list |
| `FolderData.KeyedLineSplits` | ansible/devutil/ssh_session_repo.py:268-278 | a keyed line splits at its first equals sign |
| `FolderRoundTrip.JoinedSplits` | ansible/devutil/ssh_session_repo.py:269-276 | splitting what was joined gives the names back |
| `FolderRoundTrip.RoundTrip` | ansible/devutil/ssh_session_repo.py:263-317 | saving and parsing restores folders, sessions and flag for storable names |
| `FolderRoundTrip.RoundTripExactly` | ansible/devutil/ssh_session_repo.py:263-317 | and does so if and only if the names are storable |
| `FolderRoundTrip.BlankFirstLost` | ansible/devutil/ssh_session_repo.py:269-276 | a first name with a leading blank is lost |
| `FolderRoundTrip.ParseTail` | ansible/devutil/ssh_session_repo.py:313-317 | the flag is read back although its line lacks a key or a line end |
| `FolderRoundTrip.SavedHasLists` | ansible/devutil/ssh_session_repo.py:304-317 | a saved file of plain names holds both list lines, so reading it yields two sets |
| `SessionRepo.EmptyTextParses` | ansible/devutil/ssh_session_repo.py:238-242 | the file written for a new folder is an empty record |
| `SessionRepo.CreateSound` | ansible/devutil/ssh_session_repo.py:175-198 | creating a folder keeps everything and lists each new folder in its parent |
| `SessionRepo.GenerateSound` | ansible/devutil/ssh_session_repo.py:139-173 | one call adds its sessions and loses nothing |
| `SessionRepo.RunLosesNothing` | ansible/devutil/ssh_session_repo.py:139-198 | no sequence of calls loses an entry: every session of every call, IPv4 and IPv6, and every created folder stays listed |
| `SessionRepo.RunFilesExactly` | ansible/devutil/ssh_session_repo.py:139-173 | the session files are those that were there and those that the calls ask for |
| `SessionRepo.RunDirsExactly` | ansible/devutil/ssh_session_repo.py:175-198 | the folders are those that were there, the requested ones, and their ancestors |
| `SessionRepo.RunEntriesExactly` | ansible/devutil/ssh_session_repo.py:139-198 | the index files gain just the new folders, each in its parent, and the sessions that the calls ask for |
| `SessionRepo.StorableIffSurvives` | ansible/devutil/ssh_session_repo.py:307-311 | in the order in which names are saved, only the first one's leading blank matters |
| `SessionRepo.SavedComesBack` | ansible/devutil/ssh_session_repo.py:263-317 | a saved record comes back if and only if its names survive |
| `SessionRepo.GoodRequestsStorable` | ansible/devutil/ssh_session_repo.py:139-198 | names without separators, line breaks and leading blanks always do, in whatever order the calls come |
| `SessionRepo.Repo.FromFolder` | ansible/devutil/ssh_session_repo.py:226-246 | reading a folder record, creating an empty one where none exists |
| `SessionRepo.Repo.Store` | ansible/devutil/ssh_session_repo.py:304-317 | saving rewrites that folder's file only, and it parses to the record if and only if the names survive |
| `SessionRepo.Repo.AddFolder` | ansible/devutil/ssh_session_repo.py:193-198 | read, add a folder, rewrite |
| `SessionRepo.Repo.AddSessionName` | ansible/devutil/ssh_session_repo.py:168-173 | read, add a session, rewrite |
| `SessionRepo.Repo.CreateFolder` | ansible/devutil/ssh_session_repo.py:175-198 | the recursion over missing ancestors refines the tree operation |
| `SessionRepo.Repo.AddSessionFile` | ansible/devutil/ssh_session_repo.py:154-173 | one session file with its folders and index entries |
| `SessionRepo.Repo.GenerateSessions` | ansible/devutil/ssh_session_repo.py:139-173 | one generate call on the files refines the tree operation |
| `SessionRepo.Repo.GenerateAll` | ansible/devutil/ssh_session_repo.py:139-198 | any number of calls on the files refine the run on the tree |
| `ImportClosure.Analyzer.AnalyzeFile` | spytest/identify_dependencies.py:118-147 | analysing a file loses nothing, expands what it adds, and adds only what is forced |
| `ImportClosure.Analyzer.FollowImports` | spytest/identify_dependencies.py:137-147 | the loop over imports follows every internal one |
| `ImportClosure.Analyzer.FollowResolved` | spytest/identify_dependencies.py:144-147 | the loop over resolved files processes each |
| `ImportClosure.Analyzer.AnalyzeAll` | spytest/identify_dependencies.py:189-191 | processed files are the least set with the roots closed under resolved imports, required ones add the variable files; it ends on cyclic imports |
| `ImportClosure.ClosureUnique` | spytest/identify_dependencies.py:118-147 | the result does not depend on the order in which imports or roots are iterated |
| `ImportClosure.SuccessorsExactly` | spytest/identify_dependencies.py:92-147 | a Python file leads to the existing module and package files of its imports from the three own packages |
| `ImportClosure.ClosureIsReached` | spytest/identify_dependencies.py:118-147 | each processed file is a root or imported by another processed file |
| `Validator.OverlapsIffShared` | ansible/verify_config.py:103-104 | for nonempty ranges the bounds test is a shared VM |
| `Validator.RangeHoldsVms` | ansible/verify_config.py:92-101 | the range holds as many VMs as the topology declares, from the VM base on |
| `Validator.WrittenVmBase` | ansible/verify_config.py:95-97 | a VM base of letters and a written number is read as that number |
| `Validator.Assertion.AssertTrue` | ansible/verify_config.py:113-119 | the flag stays set only while every check holds |
| `Validator.MustNotOverlap` | ansible/verify_config.py:418-430 | the loop accepts a range exactly when it overlaps no stored one |
| `Validator.GroupCheckSuffices` | ansible/verify_config.py:432-450 | checking against the stored testbed of a group is checking against the whole group |
| `Validator.RangeCheckSuffices` | ansible/verify_config.py:418-430 | checking against the stored ranges is checking against all earlier testbeds |
| `Validator.ChecksDecide` | ansible/verify_config.py:272-351 | the checks of one pass decide whether the longer list is consistent |
| `Validator.CheckTestbed` | ansible/verify_config.py:278-345 | the checks of one testbed in order |
| `Validator.ValidateOne` | ansible/verify_config.py:277-351 | the loop body keeps tables and flag exact |
| `Validator.Validate` | ansible/verify_config.py:272-351 | validation finishes exactly when every VM base is readable and passes exactly when names are unique, groups agree and VM ranges are nonempty and disjoint |
| `Validator.VmTestbedsHaveOwnGroups` | ansible/verify_config.py:272-351 | testbeds with VMs never share a group |

## Left out

- NUT: `type` and `hwsku`, `vrf_name` and `mac_addr` of the rows and the contents of the neighbour rows are not modelled;
  VRF tables are taken to be present and templates' networks to be parsed.
- P2pTheorems.VisitsExactlyReachable: link tables whose rows between testbed devices do not pair up are not covered,
  because the source then raises or records one-sided rows depending on order; the refinement of the loop and the
  lemmas of P2pReusedPort hold for them too.
- P2pAddresses.InterfaceAddressesDistinct: pools with different CIDR keys are taken to be disjoint, because overlapping ones collide.
- Routes.GenerateRoutes: `int(math.log(n, 2))` is the exact floor, because floating-point rounding is not the point; IPv6
  patterns other than the default are not modelled.
- FibT0.FibRoutes: aggregate routes are not appended, because they are configuration copied through; `filterout_subnet`, whose
  result the callers discard, may raise on prefixes that are not aligned, which is not modelled either.
- FibT0.VmRow: the same for the aggregate routes of one VM.
- T2Routes.GenerateT2: one linecard, rows before `random.shuffle`, and no VIP and aggregate routes, which are copied through.
- M0Routes.GenerateUpstreamRoutes: past the end of the address space the library turns an IPv4 address into an IPv6 one and
  raises on an IPv6 one; neither is modelled, and M0Tiling.AllBlocksInRange bounds every address by the end of the range.
- `generate_mx_routes` and `fib_mx`: the upstream part repeats the default route with a path that ends in "None"; M1, C0, FT2, LT2, DPU,
  `fib_t1_lag` and the mclag variant of the announcer are not modelled.
- HTTP, retries, thread pools and process control around the announcer are not modelled.
- TopoGenerator.Generator.GenerateTopo: breakout counts and link steps are taken to be positive, and a VM's copy of the DUT's
  own ASNs is not modelled, because it is one constant.
- LinkMap.ParseVlanRanges: the parts arrive as numbers, so the error of `int` on other text is not modelled.
- Link-based topology generation, VLAN groups and the rendering of topology files are not modelled.
- VlanSearch.TestBed.LinkDutRelatedDevices: node tables are sets of hostnames, because the stored objects are looked up and not changed.
- Recovery.InterleavingsAgree: a task's exit status is fixed in advance by its name, because the subprocesses are not visible.
- RecoveryJobs.JoinAll: sleeping and thread scheduling are rounds with given finishing times. The printed summary is not modelled.
- SessionRepo.Repo.AddFolder: requires the new record's names to come back from its file, because the next read would lose them.
- SessionRepo.Repo.AddSessionName: the same.
- SessionRepo.Repo.CreateFolder: the same for every folder it creates.
- SessionRepo.Repo.AddSessionFile: the same.
- SessionRepo.Repo.GenerateSessions: the same.
- SessionRepo.Repo.GenerateAll: the files are described for calls whose index files all come back, a condition on the names
  that SessionRepo.RunStorable states; what a lost name leaves behind is not followed further. Session file contents and
  encryption are not modelled; index files are taken to hold both list lines, as every file the generator writes does.
- FolderData.ParseIni: digits of a flag are ASCII, and a file without a list line, where the source keeps a list, yields an
  empty set; FolderData.HasLists tells such files apart.
- ImportClosure.Analyzer.AnalyzeAll: extraction of import names and of variable files are tables, because they read source text.
- Validator.Validate: the answers of the checks that read other files are fields of the testbed; YAML parser errors, which
  `assert_true` only logs, do not occur; digits of a VM base are ASCII.
- Validator.CheckTestbed: the same answers are given, because the other files are not modelled.
- TopoNames.VmNamesDistinct: `str.upper` is modelled on ASCII letters.
- Small allocators and lookups, fact scrapers, dashboards and command strings of the repository are not modelled.
