# The den2ne protocol: a Dafny model

The program modelled here, `4.8/examples/den2ne-def`, runs on every node of a wireless
network. A root node opens numbered rounds. In each round a tree of HLMAC addresses grows
downwards from the root, one SetHLMAC message per edge end, and the electrical loads of the
nodes are collected upwards along it with Load and Share messages until the root declares that
the round has converged. Each common node keeps exactly 100 units and passes the rest, or the
lack of it, to its parent.

The configuration is the unicast one without IPv6 (`IOTORII_HLMAC_CAST == 0`,
`IOTORII_IPV6 == 0`, `LOG_DBG_STATISTIC == 1`), with one root (node type 1) and common nodes
(type 2). A node keeps one address (`HLMAC_MAX_HLMAC == 1`); the address tree and the loop
check are also proved for the configuration without a limit (`-1`).

## The files

| file | content |
|---|---|
| `Types.dfy`, `Sums.dfy` | machine integers (`short` with its wrap-around, bytes) and finite sums |
| `HlmacAddr.dfy`, `HlmacTable.dfy` | addresses, their order, the address table and the loop check |
| `Wire.dfy`, `Dispatch.dfy` | payload bytes, the receiver's length tests, neighbour discovery |
| `NodeModel.dfy`, `RandomOrder.dfy`, `Node.dfy` | one node: handlers as functions, and the class with the program's fields proved against them |
| `Round.dfy`, `RoundLocal.dfy`, `RoundInv.dfy` | one round as a transition system over a graph, and its invariant |
| `RoundTree.dfy`, `RoundSafety.dfy`, `RoundCount.dfy`, `RoundLoads.dfy`, `RoundFlow.dfy`, `RoundTheorems.dfy`, `RoundRuns.dfy` | the tree of a round, termination detection, message counts, conservation, the closed form, flows, the results over whole runs, and runs that exist |
| `RoundReports.dfy` | what Loads carry and parents record |
| `RoundChain.dfy` | rounds one after the other: how recorded flows grow stale, and what the root accumulates |
| `RoundOutbox.dfy` | a round through the nodes' queues and CSMA: with clean hand-overs it refines the round |
| `AddressTree.dfy`, `AddressTheorems.dfy`, `AddressParent.dfy` | all rounds together, with messages lost, duplicated and reordered |
| `Csma.dfy`, `CsmaRuns.dfy`, `CsmaTheorems.dfy`, `CsmaRadio.dfy` | the output queue of `csma-output.c`: class, runs, results, and what the radio makes of them |
| `Outbox.dfy` | the node's queue of payloads on top of the output queue |

## What the results assume

- Neighbour tables are complete, symmetric and hold at most 255 entries, that of the root at most
  254 (`Round.ConfigOk`). `RoundTheorems.HellosMakeReady` shows that any symmetric exchange of
  Hellos leads there. Both limits are exact: the 256th id wraps to 0 (`Dispatch.IdsUsable`), and
  with 255 nodes to send to, which a common node never has while its parent is one of 255
  entries (`RoundTree.RecipientsFit`), the send loop does not end (`RandomOrder.SendLoopEnds`).
- Counter, load and flow results are about a round whose messages do not mix with those of
  another and are not duplicated, since Load and Share carry no timestamp. Messages may be
  delayed, reordered and lost. `RoundTheorems.RoundsChain` shows that rounds can follow one
  another once the messages of the earlier one are gone. The results hold for any round of such a
  chain; flows alone outlast a round, and the flow results say what the earlier ones left.
- That messages are not duplicated is a condition the program itself can break, because a payload
  can be handed to CSMA more than once. `Outbox.HandedOnceWhen` says exactly when each queued payload
  is accepted once only: CSMA accepts none while it still holds one for the same neighbour, and
  draws no delay of 1000, which with a backoff period of at most 142 ticks it never does
  (`Outbox.HandedOnce`). While this holds at every node, whatever the nodes do through their queues and
  CSMA is a run of the round (`RoundOutbox.CleanRunIsRound`), so the round results apply to it
  (`RoundOutbox.EndToEndDetection`). There an accepted hand-over may arrive at any later time,
  once at most, or never. `Outbox.ShareTwice` and `RoundTheorems.DuplicateBreaksDetection` show what happens without it.
- The address tree needs neither: `AddressTree` allows loss, duplication, reordering and any
  overlap of rounds.
- Addresses have at most 255 ids, since the length is an 8-bit field that wraps to 0
  (`HlmacAddr.HlmacAddress.AddNewId`). With one address per node no address is longer than the
  number of nodes, and with any other limit none is longer than that by more than one id
  (`AddressParent.AddressLength`, and `RoundTree.DepthBound` within a round). So the assumption can
  only fail in networks of more than 255 nodes, or 254 where a node keeps several addresses.
- A payload has room for two records (`max_payload >= len + 7 + 2 * LINKADDR_SIZE`);
  `RoundTree.PayloadsFit` bounds the `len` that can occur by the number of nodes.
- The root has no neighbour with flag 1, yet nothing stops it from queuing a Share. Such a
  Share has no destination set; in the round model it reaches nobody.

## Where the code does not do what it seems meant to

- The index of the loop that queues the SetHLMACs has 8 bits, and the loop's test is that it is at most
  the number of neighbours to send to. With 255 of them, say at a root that heard 255 Hellos, the
  255th pass wraps the index to 0 and takes the destination from slot -2 of the list, and the test never
  fails again; the loop ends if and only if there are at most 254 (`RandomOrder.SendLoopEnds`). A
  payload without room for two records is not affected: it ends the loop after one pass.
- The guard before a SetHLMAC is built leaves out the four bytes of the timestamp
  (`Wire.GuardIsNotEnough`).
- A payload that CSMA queues behind another one for the same neighbour is taken for refused and
  handed over again (`Outbox.DuplicatedWhen` gives the exact condition). The ordinary pair of a
  Load and a Share for one parent meets it while the Load is still in CSMA: `Outbox.ShareTwice` is
  a history in which the one queued Share is accepted twice. A Share that arrives twice lets the
  root converge without the Share of another child and counts double
  (`RoundTheorems.DuplicateBreaksDetection`).
- The Share of a subtree of 328 nodes can wrap; up to 327 nodes it cannot
  (`RoundLoads.SmallSubtreeIsExact`). `RoundRuns.OverflowExists` is a run without losses in a tree of
  329 nodes in which 32736 is sent where 32800 is lacking, and the root ends up with 65536 too much.
  In general the root is off by exactly what the Shares of its children wrapped
  (`RoundTheorems.TerminationDetection`).
- A recorded flow is never cleared, and a parent records a Share only where nothing is recorded. So
  from the second round on the parent's record is stale: after any converged round the two ends of
  a tree edge are opposite if and only if the Share is not -32768 and the parent had recorded nothing or that
  very Share before the round, and a node's flows are off by exactly what is stale
  (`RoundTheorems.FlowBalance`). Over a chain of rounds with the same edge the parent keeps the first
  Share that was not 0 (`RoundChain.FirstShareStays`). `RoundChain.RecordGrowsStale` is the smallest
  history: two nodes, no losses, draws of 150 and then 120, and the records are 50 and -20.
- What is not stale adds up to 100 with the initial load exactly if and only if the node's surplus
  lies between -32767 and 32768 (`RoundTheorems.FlowBalance`, and `RoundTheorems.FirstFlowBalance` where
  no flow was recorded before the round).
- The root's entry in `node_list` is not cleared when it opens a round: it draws a load in its first round only
  and adds what each later round brings (`RoundChain.RootAccumulates`).
- A SetHLMAC that a common node accepts and gets a second time is offered in vain, so its sender, the parent, gets flag -1
  and the node has no parent left to send to (`AddressParent.TwiceLosesParent`).
- Without a limit on addresses the root takes addresses that run through itself
  (`AddressTheorems.RootTakesLoops` says exactly when, and `AddressTheorems.RootHoldsLoop` is a history
  in which it does); common nodes never do.
- A network of one node never converges (`RoundTheorems.SingleNodeNeverConverges`).
- 1000 stands for "not scheduled", but is a possible delay once a backoff period exceeds 32
  ticks, or 142 ticks for a first attempt (`CsmaTheorems.SentinelIsSound`, `FirstDelayIsSound`).
- With a limit of 0 packets per neighbour the output queue keeps an empty queue
  (`CsmaTheorems.EmptyQueueLeft`).
- Dropping the newest address of an empty table wraps its count to 255 (`HlmacTable.Table.Chop`).

## Model

| member | source | states |
|---|---|---|
| RoundTheorems.TerminationDetection | 4.8/examples/den2ne-def/iotorii-csma.c:1590-1967 | in every asynchronous run, if the root has set `has_converged` then every node has joined and sent Load and Share, no message is under way or lost, every common node holds 100, and the root holds its start load, everyone else's surplus and what the Shares of its children wrapped: in networks of any size the last part is the sum over those children of (subtree surplus as a `short` - subtree surplus), a multiple of 2^16, and 0 if each of these surpluses lies between -32768 and 32767, as they do up to 328 nodes |
| RoundTheorems.Termination | 4.8/examples/den2ne-def/iotorii-csma.c:1246-1967 | a round has at most 2·edges + (n-1) events; once everything sent has been delivered the root, with at most 254 neighbours, has converged, after exactly 2·edges - (n-1) SetHLMACs, n-1 Loads and n-1 Shares |
| RoundTheorems.SingleNodeNeverConverges | 4.8/examples/den2ne-def/iotorii-csma.c:1996-2050 | the one network in which the root never declares convergence: no event is ever possible |
| RoundTheorems.RunConserves | 4.8/examples/den2ne-def/iotorii-csma.c:842-873 | in every state of a round the node loads plus the Shares in flight or lost equal the initial loads of the nodes that joined plus what the Shares sent so far wrapped: a multiple of 2^16, and 0 if the surplus of each node that has shared fits a `short`, as it does up to 328 nodes |
| RoundTheorems.RunShares | 4.8/examples/den2ne-def/iotorii-csma.c:853-904 | every Share is the sum over the sender's subtree of (initial load - 100) in 16 bits, exact if and only if that sum fits, as it and its negation do up to 327 nodes |
| RoundTheorems.RunCounters | 4.8/examples/den2ne-def/iotorii-csma.c:1807-1942 | at every joined node the counters equal the neighbours not yet heard from; a common node has exactly one neighbour with flag 1; `edge` is set exactly at childless nodes with all SetHLMACs in |
| RoundTheorems.RunFlags | 4.8/examples/den2ne-def/iotorii-csma.c:1860-1880 | in every run the flag of each neighbour of a joined node: 1 for the parent, -1 for a neighbour whose SetHLMAC was processed and whose address does not run through the node (at the root, any such neighbour after round 0), 0 for all others |
| RoundReports.RunReports | 4.8/examples/den2ne-def/iotorii-csma.c:754-838 | in every run a node that has sent its Load has exactly one on the way to its parent or delivered, it carries the recorded load, and once it is heard the parent has that value in its table; at a node without children it is the load drawn |
| RoundReports.RecordedWhenSent | 4.8/examples/den2ne-def/iotorii-csma.c:754-838 | the recorded load is what the node held when the Load went out: start load plus the Shares absorbed so far, or 100 if its Share had already gone |
| RoundReports.RecordStays | 4.8/examples/den2ne-def/iotorii-csma.c:754-838 | and it stays that for the rest of the round |
| RoundReports.ConvergedReports | 4.8/examples/den2ne-def/iotorii-csma.c:1617-1638 | once the root has converged every parent has recorded for every child exactly the value its Load carried |
| RoundTheorems.FlowBalance | 4.8/examples/den2ne-def/iotorii-csma.c:900-909 | after any converged round, in networks of any size: at every common node initial load plus recorded flows is 100 plus what is stale, modulo 2^16, and exactly if and only if the surplus lies between -32767 and 32768, as it does up to 328 nodes; at a tree edge the child has recorded the negated Share in 16 bits and the parent what it had before the round, or the Share if that was 0, and the two are opposite if and only if the Share is not -32768 and the parent had recorded 0 or the same |
| RoundTheorems.FirstFlowBalance | 4.8/examples/den2ne-def/iotorii-csma.c:1760-1761 | in a converged round before which no flow was recorded: initial load plus flows is 100 modulo 2^16 at every common node, and exactly 100 if and only if the surplus lies between -32767 and 32768; a tree edge records opposite flows if and only if the Share is not -32768; up to 328 nodes both always hold |
| RoundChain.FirstShareStays | 4.8/examples/den2ne-def/iotorii-csma.c:1760-1761 | in any chain of converged rounds after booting in which a node stays the child of another, the parent ends up with the first Share that was not 0 and the child with the negation of the last one, opposite if and only if these two Shares are equal and not -32768 |
| RoundChain.RecordGrowsStale | 4.8/examples/den2ne-def/iotorii-csma.c:1760-1761 | two booted nodes, two rounds without losses and draws of 150 and 120 end with 50 recorded at the root and -20 at the other node |
| RoundChain.NextRound | 4.8/examples/den2ne-def/iotorii-csma.c:1807-1833 | after any round of a connected network another one exists without losses, with whatever loads are drawn |
| RoundChain.RootAccumulates | 4.8/examples/den2ne-def/iotorii-csma.c:1996-2050 | the root keeps its entry from round to round: after a chain of converged rounds it holds the load drawn in the first one plus, for each round, everyone else's surplus and what its children's Shares wrapped |
| RoundLoads.RootStarts | 4.8/examples/den2ne-def/iotorii-csma.c:1996-2050 | the root starts with the load drawn in its first round and with what it holds in later ones |
| RoundOutbox.CleanRunIsRound | 4.8/examples/den2ne-def/iotorii-csma.c:1113-1181 | a refinement: every run of the nodes through their payload queues and CSMA, whose hand-overs are clean, ends as some run of the round does, with each channel holding what was queued for it, delivered exactly if it has arrived |
| RoundOutbox.EntersOnce | 4.8/examples/den2ne-def/iotorii-csma.c:1126-1172 | in such a run a node queues at most one message of each kind for each other node, and CSMA accepts it at most once, in the order of the queue |
| RoundOutbox.EndToEndDetection | 4.8/examples/den2ne-def/iotorii-csma.c:1930-1945 | in such a run of a connected network the root has set `has_converged` if and only if every message queued for a node has been handed over and has arrived; then every node has sent its Load and Share and holds 100, and the root what TerminationDetection says |
| RoundTheorems.DuplicateBreaksDetection | 4.8/examples/den2ne-def/iotorii-csma.c:1590-1767 | why messages must not be duplicated: a root that hears the Share of one child twice converges without the Share of the other, with the first one counted double |
| RoundTheorems.RoundsChain | 4.8/examples/den2ne-def/iotorii-csma.c:1807-1833 | from any state of a round, once its messages are gone, the nodes are ready for the next timestamp |
| RoundTheorems.HellosMakeReady | 4.8/examples/den2ne-def/iotorii-csma.c:1469-1545 | booted nodes that exchanged empty packets symmetrically, with at most 255 neighbours each and 254 at the root, are ready for the first round, with no flag set and no flow recorded |
| RoundTheorems.FirstRoundHasNoFlow | 4.8/examples/den2ne-def/iotorii-csma.c:1523 | so the first round begins without recorded flows, as FirstFlowBalance and FirstShareStays ask |
| RoundSafety.ConvergedIsFinished | 4.8/examples/den2ne-def/iotorii-csma.c:1930-1945 | the state form of termination detection: convergence at the root spreads down the tree to every node of a connected graph |
| RoundSafety.QuietIsConverged | 4.8/examples/den2ne-def/iotorii-csma.c:1882-1944 | no deadlock: a state with every message delivered has converged |
| RoundSafety.CountersExact | 4.8/examples/den2ne-def/iotorii-csma.c:1807-1833 | `n_hijos_load` and `n_hijos_share` equal the number of neighbours from which neither a SetHLMAC of the round nor the message in question has been processed |
| RoundSafety.OneParentFlag | 4.8/examples/den2ne-def/iotorii-csma.c:1860-1880 | a neighbour of a joined common node has flag 1 if and only if it is the parent |
| RoundSafety.EdgeExact | 4.8/examples/den2ne-def/iotorii-csma.c:1882-1917 | `edge` holds if and only if all neighbours' SetHLMACs are in and the node has no child |
| RoundTree.AddrInjective | 4.8/examples/den2ne-def/iotorii-csma.c:1518-1527 | no two nodes of a round hold the same address |
| RoundTree.Ancestor | 4.8/examples/den2ne-def/iotorii-csma.c:1798-1858 | every non-empty prefix of an address is the address of a joined node |
| RoundTree.RecipientsFit | 4.8/examples/den2ne-def/iotorii-csma.c:1218-1231 | a node whose table lists its neighbours has at most 254 to send to besides any neighbour that gave it an address, and so has the root |
| RoundTree.PayloadsFit | 4.8/examples/den2ne-def/iotorii-csma.c:1274-1393 | with `max_payload >= n + 8 + 2 * macLen` every SetHLMAC under way leaves its receiver room for two records, and the receiver's send loop ends |
| RoundCount.FinishedCounts | 4.8/examples/den2ne-def/iotorii-csma.c:1246-1393 | a finished round has sent exactly 2·edges - (n-1) SetHLMACs, n-1 Loads and n-1 Shares |
| RoundCount.RunLength | 4.8/examples/den2ne-def/iotorii-csma.c:1246-1393 | no run of a round has more events than 2·edges + (n-1) |
| RoundLoads.Conservation | 4.8/examples/den2ne-def/iotorii-csma.c:1710-1713 | the load balance of a state in networks of any size: off by what the Shares sent so far wrapped, a multiple of 2^16, and not at all if none did |
| RoundLoads.RootLoad | 4.8/examples/den2ne-def/iotorii-csma.c:1710-1767 | the state form of what the root holds at the end of a round |
| RoundLoads.ClosedForm | 4.8/examples/den2ne-def/iotorii-csma.c:853-904 | the Share of a node is the surplus of its subtree converted to `short`, through all three branches |
| RoundLoads.ClosedFormExact | 4.8/examples/den2ne-def/iotorii-csma.c:853-904 | the Share equals the surplus if and only if the surplus fits a `short` |
| RoundLoads.SmallSubtreeIsExact | 4.8/examples/den2ne-def/iotorii-csma.c:2244 | with initial loads in [0, 199] no Share of at most 327 nodes wraps |
| RoundLoads.LargeSubtreeWraps | 4.8/examples/den2ne-def/iotorii-csma.c:904 | 328 nodes without load send 32736 where -32800 is due |
| RoundRuns.StuckIsQuiet | 4.8/examples/den2ne-def/iotorii-csma.c:1590-1967 | where no event is possible and nothing was lost, everything has been delivered |
| RoundRuns.LossFreeRun | 4.8/examples/den2ne-def/iotorii-csma.c:1590-1967 | every ready and connected network, its root with at most 254 neighbours, has, for any drawn loads, a run without losses that ends with everything delivered and the root converged |
| RoundRuns.OverflowHappens | 4.8/examples/den2ne-def/iotorii-csma.c:853-904 | in any connected network of 329 nodes whose root has one neighbour, a run exists in which that neighbour sends 32736 for a lack of 32800 and the root converges with 65536 too much |
| RoundRuns.OverflowExists | 4.8/examples/den2ne-def/iotorii-csma.c:853-904 | such a network and run: a binary tree with at most 3 neighbours per node |
| RoundFlow.NodeBalance | 4.8/examples/den2ne-def/iotorii-csma.c:900-909 | in any round, at any node that has sent its Share, initial load plus recorded flows is 100 plus what is stale modulo 2^16, and exactly if and only if the surplus lies between -32767 and 32768 |
| RoundFlow.SmallNodeBalance | 4.8/examples/den2ne-def/iotorii-csma.c:900-909 | up to 328 nodes the surplus of each node is its Share and lies between -32700 and 32700 |
| RoundFlow.EdgeBalance | 4.8/examples/den2ne-def/iotorii-csma.c:1760-1761 | in any finished round the child has recorded the negated Share and the parent what it had before, or else the Share; opposite if and only if the Share is not -32768 and the parent had recorded nothing or the same |
| RoundFlow.FlowsStayShort | 4.8/examples/den2ne-def/iotorii-csma.c:1760-1761 | recorded flows fit a `short` in every state of a round if they did when it began |
| AddressTheorems.OneAddressPerRound | 4.8/examples/den2ne-def/hlmac-table.c:27-86 | over any history, with loss, duplication, reordering and overlapping rounds, a node accepts at most one address per timestamp |
| AddressTheorems.TreeOfEveryHistory | 4.8/examples/den2ne-def/iotorii-csma.c:1798-1858 | over any history an address of a round belongs to one node, the one it leads to from the root, and unless it is the root's [1] it is the address of a neighbour in the same round plus that neighbour's id for the node |
| AddressTheorems.AddressInjective | 4.8/examples/den2ne-def/iotorii-csma.c:1518-1527 | an address of a round belongs to one node |
| AddressTheorems.HeldWhereItLeads | 4.8/examples/den2ne-def/iotorii-csma.c:1798-1858 | an accepted address, read as ids through the neighbour tables from the root, leads to its holder |
| AddressTheorems.PrefixHeld | 4.8/examples/den2ne-def/iotorii-csma.c:1798-1858 | every non-empty prefix is held in the same round by the node it leads to, down to [1] at the root |
| AddressTheorems.NoCycle | 4.8/examples/den2ne-def/iotorii-csma.c:1800-1858 | following parents visits no node twice |
| AddressTheorems.LoopFreedom | 4.8/examples/den2ne-def/hlmac-table.c:108-187 | with any limit on addresses, and without one, the path of an accepted address visits no node twice, except that it may come back to the root once |
| AddressTheorems.RootTakesLoops | 4.8/examples/den2ne-def/iotorii-csma.c:1800-1808 | in every history each address sent to the root runs through the root, and the root takes it if and only if the timestamp is newer than `last_timestamp` and the table has room; with one address per node it never does |
| AddressTheorems.RootHoldsLoop | 4.8/examples/den2ne-def/iotorii-csma.c:1800-1858 | if the root lies on a triangle and addresses are unlimited, a history exists in which the root holds an address of round 1 that runs through itself |
| AddressTheorems.TriangleLoops | 4.8/examples/den2ne-def/iotorii-csma.c:1800-1858 | the same for three concrete nodes |
| AddressTheorems.LastNeverDecreases | 4.8/examples/den2ne-def/iotorii-csma.c:1805-1812 | no event lowers `last_timestamp` of any node |
| AddressTheorems.LastIsMonotone | 4.8/examples/den2ne-def/iotorii-csma.c:1805-1812 | `last_timestamp` never decreases over any history |
| AddressTheorems.Freshness | 4.8/examples/den2ne-def/hlmac-table.c:27-99 | table entries of a common node carry `last_timestamp`, and the neighbour that gave it any of its addresses is at least as recent as that address |
| AddressParent.MarkedParent | 4.8/examples/den2ne-def/iotorii-csma.c:1870-1879 | in every history with one address per node, the neighbour a common node marks with flag 1 gave it its newest address, in the node's own round, and is at least as recent as the node |
| AddressParent.FlagOfEveryHistory | 4.8/examples/den2ne-def/iotorii-csma.c:1860-1880 | in every history with one address per node each neighbour of a common node has flag -1 if it offered an address in vain since the node last took one, else 1 if it gave that one, else 0 |
| AddressParent.LateReportsAreIgnored | 4.8/examples/den2ne-def/iotorii-csma.c:1590-1767 | in every history a Load or Share of a neighbour is counted down if and only if the neighbour has flag 0, the node is no leaf and the counter is not 0, and else leaves counters and load alone; either way it is recorded at the entry, a flow only where none is recorded |
| AddressParent.NothingDueIsLeft | 4.8/examples/den2ne-def/iotorii-csma.c:1640-1767 | in every history nothing due is left unsent: after a SetHLMAC neither Load nor Share, after a Load of a neighbour no Load, after an awaited Share no Share, and the root has declared convergence where its counters allow |
| AddressParent.TwiceLosesParent | 4.8/examples/den2ne-def/iotorii-csma.c:1870-1879 | a common node that accepted a SetHLMAC and gets it a second time has no neighbour with flag 1 left |
| AddressParent.FurtherAddress | 4.8/examples/den2ne-def/iotorii-csma.c:1800-1880 | where a table has room for more, a further address of the same round is counted down, its load is listed behind the first entry, its giver gets flag 1, and the round does not start again |
| AddressParent.AddressLength | 4.8/examples/den2ne-def/hlmacaddr.c:54-74 | no address in any history has more ids than the network has nodes plus one, nor, with one address per node, more than it has nodes |
| AddressTree.HistoryInv | 4.8/examples/den2ne-def/iotorii-csma.c:1798-1967 | every state of every history keeps the table, log and message invariants behind the results above |
| HlmacAddr.Cmp | 4.8/examples/den2ne-def/hlmacaddr.c:105-143 | `hlmac_cmp` returns 0, 1 or -1, never -2, for equal, smaller and larger in lexicographic order on zero-padded ids |
| HlmacAddr.Trichotomy | 4.8/examples/den2ne-def/hlmacaddr.c:105-143 | exactly one of equal, smaller, larger holds |
| HlmacAddr.SmallerIdFirst | 4.8/examples/den2ne-def/hlmacaddr.c:105-143 | after a common beginning the smaller id makes the smaller address, whatever follows |
| HlmacAddr.LexTransitive | 4.8/examples/den2ne-def/hlmacaddr.c:105-143 | the order is transitive and respects equality modulo trailing zeros |
| HlmacAddr.AddThenRemove | 4.8/examples/den2ne-def/hlmacaddr.c:54-103 | adding an id and removing the last one gives the address back |
| HlmacAddr.HlmacAddress.AddNewId | 4.8/examples/den2ne-def/hlmacaddr.c:54-74 | appends an id; at length 255 the 8-bit length wraps and nothing is left |
| HlmacAddr.HlmacAddress.RemoveLastId | 4.8/examples/den2ne-def/hlmacaddr.c:76-103 | drops the last id; dropping the only one gives the unspecified address |
| HlmacAddr.HlmacAddress.CreateRootAddr | 4.8/examples/den2ne-def/hlmacaddr.c:44-52 | the address [id] in a fresh array |
| HlmacAddr.HlmacAddress.IsUnspecified | 4.8/examples/den2ne-def/hlmacaddr.c:16-23 | unspecified means without an array |
| HlmacAddr.HlmacAddress.GetIndexValue | 4.8/examples/den2ne-def/hlmacaddr.c:146-158 | the k-th id, or 0 past the end |
| HlmacAddr.HlmacAddress.Copy | 4.8/examples/den2ne-def/hlmacaddr.c:31-42 | the ids of an address |
| HlmacTable.HasLoopIsProperPrefix | 4.8/examples/den2ne-def/hlmac-table.c:108-187 | with non-zero ids the loop check answers yes if and only if an entry is a proper prefix of the address |
| HlmacTable.FirstComeFirstServed | 4.8/examples/den2ne-def/hlmac-table.c:27-60 | of offers none of which is newer than the first the table takes the first ones, up to its limit, and 255 without one |
| HlmacTable.NewerClears | 4.8/examples/den2ne-def/hlmac-table.c:27-34 | a newer offer clears the table and is its one entry |
| HlmacTable.Table.Add | 4.8/examples/den2ne-def/hlmac-table.c:27-86 | clears an older round first, then appends while there is room; the result says which |
| HlmacTable.Table.Clean | 4.8/examples/den2ne-def/hlmac-table.c:88-99 | leaves an empty table |
| HlmacTable.Table.Chop | 4.8/examples/den2ne-def/hlmac-table.c:101-106 | drops the newest entry; on an empty table the count wraps to 255 and no longer fits the list |
| HlmacTable.Table.GetLongestMatchedPrefix | 4.8/examples/den2ne-def/hlmac-table.c:154-187 | the longest proper non-empty prefix that compares equal to an entry, or unspecified |
| HlmacTable.Table.HasLoopCheck | 4.8/examples/den2ne-def/hlmac-table.c:108-152 | whether such a prefix exists; an empty address counts as a loop |
| Wire.SetHlmacRoundTrip | 4.8/examples/den2ne-def/iotorii-csma.c:636-720 | the owner of the k-th record reads back the timestamp and prefix ++ [id_k], or no id at all after a prefix of 255, everyone else ignores the payload, whatever lies behind it in memory |
| Wire.ShortPayloadsRoundTrip | 4.8/examples/den2ne-def/iotorii-csma.c:1588-1713 | Hello, Load and Share are told apart by length and read back unchanged |
| Wire.ShortPayloadsAreSelfContained | 4.8/examples/den2ne-def/iotorii-csma.c:636-720 | a payload of at most 5 bytes is never taken for a SetHLMAC, and bytes past its end do not matter |
| Wire.OtherLengthsAreIgnored | 4.8/examples/den2ne-def/iotorii-csma.c:1588-1800 | a payload of any length but 0, 2 and 4 is ignored unless it is a SetHLMAC of more than 5 bytes |
| Wire.PayloadLayout | 4.8/examples/den2ne-def/iotorii-csma.c:1274-1341 | timestamp, prefix length, prefix, then records of id and link address at fixed places |
| Wire.GuardIsNotEnough | 4.8/examples/den2ne-def/iotorii-csma.c:1274-1341 | a payload fits its buffer if and only if `max_payload >= len + 6 + macLen`; the guard admits four bytes less |
| Wire.EncodeUnicast | 4.8/examples/den2ne-def/iotorii-csma.c:1281-1341 | the copying code writes exactly the encoding of one record and stays within the buffer |
| Wire.ExtractAddress | 4.8/examples/den2ne-def/iotorii-csma.c:636-720 | the scan over the records yields prefix ++ [id] for the receiver's record, unspecified without one |
| Wire.ExtractTimestamp | 4.8/examples/den2ne-def/iotorii-csma.c:727-750 | the one 32-bit number whose encoding stands in the first four bytes |
| Wire.BytesRoundTrip | 4.8/examples/den2ne-def/iotorii-csma.c:727-750 | any four bytes are the encoding of the number they decode to |
| Dispatch.DeliveredToDestination | 4.8/examples/den2ne-def/iotorii-csma.c:1977-1990 | the bytes of a queued message make its destination run the handler the message is meant for |
| Dispatch.OverheardIsIgnored | 4.8/examples/den2ne-def/iotorii-csma.c:1588-1600 | a SetHLMAC for another node changes nothing and sends nothing |
| Dispatch.IdsUsable | 4.8/examples/den2ne-def/iotorii-csma.c:1499-1527 | after any empty packets addresses and ids are distinct, and all ids non-zero if and only if there are at most 255 |
| Dispatch.PacketsDiscover | 4.8/examples/den2ne-def/iotorii-csma.c:1977-1983 | any empty packets, parsed and dispatched, leave a table of exactly their senders, up to 256, in the order of first hearing, with ids in that order modulo 256, no flag and no flow, and nothing else changed |
| Dispatch.HeardInOrder | 4.8/examples/den2ne-def/iotorii-csma.c:1499-1527 | of two senders in the table the one listed first had been heard at a time when the other had not |
| RandomOrder.CountOthers | 4.8/examples/den2ne-def/iotorii-csma.c:1218-1231 | the 8-bit count of the neighbours other than the sender, right up to 255 entries and wrapped at 256 |
| RandomOrder.PlaceRandomly | 4.8/examples/den2ne-def/iotorii-csma.c:1233-1264 | whatever is drawn, the filled list is a permutation of the neighbours without the sender |
| RandomOrder.SendLoopEnds | 4.8/examples/den2ne-def/iotorii-csma.c:1270-1393 | with room for two records the send loop ends if and only if there are at most 254 neighbours to send to, after one pass for each, every pass with record and destination of the same neighbour; with 255 the index wraps, the last of them takes its destination from slot -2, and the loop's test never fails |
| NodeClass.IotoriiNode.EnqueueSetHlmacs | 4.8/examples/den2ne-def/iotorii-csma.c:1270-1393 | where the loop ends (at most 254 slots, or no room for two records), with its 8-bit index it queues the messages for the slots in their order, or the first only without room for two records |
| NodeClass.IotoriiNode.SendSetHlmac | 4.8/examples/den2ne-def/iotorii-csma.c:1202-1446 | up to 254 recipients, where the loop ends: exactly one SetHLMAC per other neighbour is queued, one in all without room for two records (for 255 recipients too), none without room for one, and none at a node with 256 neighbours besides the sender |
| NodeClass.IotoriiNode.HandleIncomingHello | 4.8/examples/den2ne-def/iotorii-csma.c:1469-1545 | the table gains an unknown sender with the next id; the counter stays its length |
| NodeClass.IotoriiNode.NeighboursFlag | 4.8/examples/den2ne-def/iotorii-csma.c:1048-1054 | clears every flag and nothing else |
| NodeClass.IotoriiNode.HandleLoadTimer | 4.8/examples/den2ne-def/iotorii-csma.c:754-838 | queues the load for the parent, behind what is queued; the send timer runs exactly when something is queued |
| NodeClass.IotoriiNode.HandleShareUpstreamTimer | 4.8/examples/den2ne-def/iotorii-csma.c:842-927 | the node keeps 100, records the flow at its parent and queues the difference |
| NodeClass.IotoriiNode.HandleIncomingLoad | 4.8/examples/den2ne-def/iotorii-csma.c:1590-1677 | the Load branch computes NodeModel.OnLoad |
| NodeClass.IotoriiNode.HandleIncomingShare | 4.8/examples/den2ne-def/iotorii-csma.c:1679-1767 | the Share branch computes NodeModel.OnShare |
| NodeClass.IotoriiNode.HandleIncomingSetHlmac | 4.8/examples/den2ne-def/iotorii-csma.c:1798-1967 | the SetHLMAC branch computes NodeModel.OnSetHlmac, its messages up to order |
| NodeClass.IotoriiNode.Operation | 4.8/examples/den2ne-def/iotorii-csma.c:1977-1990 | any packet has the effect its decoding says |
| NodeClass.IotoriiNode.HandleSetHlmacTimer | 4.8/examples/den2ne-def/iotorii-csma.c:1996-2050 | the root takes [1] at the next timestamp, sends it to every neighbour, of which it has at most 254, and awaits them all |
| NodeClass.IotoriiNode.HandleSendMessageTimer | 4.8/examples/den2ne-def/iotorii-csma.c:1113-1181 | the first entry is handed to CSMA and leaves only if a delay was drawn; the timer is armed again exactly when something is left |
| NodeModel.SetKeepsIdentity | 4.8/examples/den2ne-def/iotorii-csma.c:1798-1967 | a SetHLMAC changes the address table exactly as hlmactable_add does when the address is offered, and not at all otherwise |
| NodeModel.LoadBeforeShare | 4.8/examples/den2ne-def/iotorii-csma.c:1882-1944 | among the messages one SetHLMAC makes a node queue, the Load comes before the Share |
| Csma.CsmaOutput.constructor | 4.8/examples/den2ne-def/csma-output.c:531-536 | empty pools and an empty list |
| Csma.CsmaOutput.NeighborQueueFromAddr | 4.8/examples/den2ne-def/csma-output.c:122-134 | the first queue for an address |
| Csma.CsmaOutput.ScheduleTransmission | 4.8/examples/den2ne-def/csma-output.c:265-283 | arms the timer with the drawn delay and publishes it |
| Csma.CsmaOutput.FreePacket | 4.8/examples/den2ne-def/csma-output.c:286-314 | the head and its three blocks go back; the next packet starts afresh, or the empty queue leaves the list |
| Csma.CsmaOutput.TxDone | 4.8/examples/den2ne-def/csma-output.c:317-335 | one callback with the transmissions counted before the reset |
| Csma.CsmaOutput.HandlePacketSent | 4.8/examples/den2ne-def/csma-output.c:345-424 | the retry rule for each result |
| Csma.CsmaOutput.TransmitFromQueue | 4.8/examples/den2ne-def/csma-output.c:243-262 | one attempt for the head of the queue whose timer expired |
| Csma.CsmaOutput.OutputPacket | 4.8/examples/den2ne-def/csma-output.c:427-528 | the packet is queued, or refused with one callback and every block given back, an empty queue for its destination included |
| CsmaTheorems.PoolsConserved | 4.8/examples/den2ne-def/csma-output.c:447-527 | in every run, failed allocations included: packets, metadata and buffers in use are the queued packets, entries in use are the listed queues, addresses are distinct, no queue is empty, every timer is armed |
| CsmaTheorems.EmptyQueueLeft | 4.8/examples/den2ne-def/csma-output.c:465-521 | from any list: with a limit above 0 the queue for the destination holds a packet after an acceptance, is taken off the list by a refusal if it was empty, and otherwise nothing changes; with the limit 0 nothing is accepted and the entry made for a new destination stays empty; and so exactly when no listed queue is empty afterwards |
| CsmaTheorems.OneCallbackEach | 4.8/examples/den2ne-def/csma-output.c:317-335 | every packet handed over has exactly one callback once it is no longer queued and none before |
| CsmaTheorems.CallbacksAreTrue | 4.8/examples/den2ne-def/csma-output.c:345-385 | NOACK and COLLISION are reported only after max_transmissions, OK within them, a refusal as one error |
| CsmaTheorems.CompletesInOrder | 4.8/examples/den2ne-def/csma-output.c:447-500 | per destination, completed packets followed by the queue are the accepted packets in the order they were handed over |
| CsmaTheorems.StepRefines | 4.8/examples/den2ne-def/csma-output.c:243-527 | each event is an enqueue at one destination, a dequeue of its head, or nothing, of an abstract map of FIFOs |
| CsmaTheorems.NoDeadlock | 4.8/examples/den2ne-def/csma-output.c:265-314 | every listed queue can make its next attempt, and no free block is freed |
| CsmaTheorems.AttemptsBounded | 4.8/examples/den2ne-def/csma-output.c:345-377 | a packet takes at most (CSMA_MAX_BACKOFF + 1) * max_transmissions attempts |
| CsmaTheorems.CollisionsUseTheBudget | 4.8/examples/den2ne-def/csma-output.c:345-362 | with nothing but collisions the packet is given up at exactly that attempt |
| CsmaTheorems.EveryPacketIsServed | 4.8/examples/den2ne-def/csma-output.c:243-424 | the events of a run are bounded by the packets handed over, and without an armed timer every packet has had its callback |
| CsmaTheorems.DelaysBelowMaximum | 4.8/examples/den2ne-def/csma-output.c:538-539 | every delay is below max_transmission_delay(), which is at most 1000 if and only if a period has at most 32 ticks |
| CsmaTheorems.SentinelIsSound | 4.8/examples/den2ne-def/csma-output.c:265-283 | no delay is 1000 if and only if a period has at most 32 ticks |
| CsmaTheorems.FirstDelayIsSound | 4.8/examples/den2ne-def/iotorii-csma.c:1126-1170 | no first delay is 1000 if and only if a period has at most 142 ticks |
| CsmaRadio.NumbersRunInACircle | 4.8/examples/den2ne-def/csma-output.c:430-444 | in every run the sequence numbers of the packets handed over, refused ones counted, run through 1 to 255 in a circle, so two are the same if and only if a multiple of 255 hand-overs lies between them, and a queued packet carries its number |
| CsmaRadio.FirstNumber | 4.8/examples/den2ne-def/csma-output.c:435-442 | the first number is the seed, or 1 for a seed of 0 |
| CsmaRadio.ResultsOfTheAir | 4.8/examples/den2ne-def/csma-output.c:159-240 | each result of an attempt stands for one behaviour of the radio: acknowledged, unanswered, busy or wrongly answered, another radio error, no frame |
| CsmaRadio.UnansweredEnds | 4.8/examples/den2ne-def/csma-output.c:365-385 | in every run a packet whose frames all go out unanswered has its callback exactly when it has had the transmissions its attribute asks for, 8 without one, with NOACK and that count |
| CsmaRadio.DisturbedEnds | 4.8/examples/den2ne-def/csma-output.c:345-362 | one that meets only a busy channel or wrong answers has it exactly after six times as many, with COLLISION |
| CsmaRadio.DecisiveEnds | 4.8/examples/den2ne-def/csma-output.c:317-424 | an acknowledgement, a frame that cannot be built and another radio error end a packet at once with OK, a fatal error and an error; only frames that went out count, after disturbed attempts every sixth |
| CsmaRadio.AcceptedWhen | 4.8/examples/den2ne-def/csma-output.c:447-527 | a packet is accepted if and only if its queue has room, or there is none and an entry is free, fewer packets are queued than there are blocks, and a buffer is given |
| CsmaRadio.DrawIsDelay | 4.8/examples/den2ne-def/csma-output.c:265-283 | every delay below 7, 15 or 31 periods, for 0, 1 or more collisions, is reached, and draws that differ by a multiple of that give the same delay |
| CsmaRadio.RetryIsDelayed | 4.8/examples/den2ne-def/csma-output.c:345-377 | after an attempt that keeps the packet the draw arms its timer and is published; the collisions count up to 5 and start afresh with an unanswered frame or the sixth |
| CsmaRadio.HeadIsDelayed | 4.8/examples/den2ne-def/csma-output.c:300-306 | so it is for a packet that becomes the head of its queue, from 7 periods; one queued behind another changes neither timer nor published delay |
| Outbox.LeavesWhen | 4.8/examples/den2ne-def/iotorii-csma.c:1113-1181 | an entry leaves the node's queue if and only if CSMA accepts it as the first packet for its destination and draws a delay other than 1000 |
| Outbox.DuplicatedWhen | 4.8/examples/den2ne-def/iotorii-csma.c:1170-1172 | an entry is accepted and kept, and so handed over again, if and only if it is accepted and a packet for its destination is already queued or the delay drawn is 1000, which up to 142 ticks per period it never is |
| Outbox.HandedOnceWhen | 4.8/examples/den2ne-def/iotorii-csma.c:1113-1181 | in any history the accepted hand-overs are throughout the entries that left, one for each, if and only if CSMA never accepts an entry behind another packet for its destination or with a drawn delay of 1000 |
| Outbox.HandedOnce | 4.8/examples/den2ne-def/iotorii-csma.c:1113-1181 | with a backoff period of at most 142 ticks: if no payload is handed over while CSMA holds one for the same neighbour, every payload is accepted exactly once, in order |
| Outbox.ShareTwice | 4.8/examples/den2ne-def/iotorii-csma.c:1170-1172 | a history in which a Load and a Share are queued for one parent and the Share is accepted twice |
| Outbox.EntriesLeaveInOrder | 4.8/examples/den2ne-def/iotorii-csma.c:1113-1181 | in every history the timer is armed exactly when entries are left, and entries leave first in, first out, each with an accepted packet |
| Outbox.SettledInOrder | 4.8/examples/den2ne-def/iotorii-csma.c:1113-1181 | through both queues, of two entries for one destination the earlier one has its callback no later |

## Left out

- Broadcast mode (`IOTORII_HLMAC_CAST == 1`) and `iotorii_handle_statistic_timer`: leaves are found there by real-time delays, not by counted messages.
- IPv6, the radio driver, the framer and packet buffers: radio results and buffer allocation are inputs of an event.
- Clock values: a timer is armed or not, and an armed timer may fire at any time.
- Timestamps are unbounded; the 32-bit wrap would need more than four billion rounds.
- Neighbour eviction (`iotorii_check_neighbours_hello`) and the time of the last Hello: ids are not unique after an eviction.
- The flash log, `printf` and statistics, `hlmac_addr_to_str`, `hlmactable_calculate_sum_hop` and the strings of a list entry: display only.
- `csma-security.c`, `ccm-star-packetbuf.c`, `anti-replay.c`: not part of this model; a failed frame is one result of an attempt.
- Memory management and aliasing: addresses, queues and packets are values, so the shallow copy in the address table and the freed string literal do not show. The pools of the output queue are counts, not blocks.
- The repeated draw for a free slot in `iotorii_send_sethlmac` is one choice of a free slot.
- The variants of the program in the other example directories, and the drawing scripts.
- NodeClass.IotoriiNode.SendSetHlmac: says nothing of 255 recipients with room for two records, since the loop does not end there (RandomOrder.SendLoopEnds); what it queues for slots outside the list is not modelled.
- NodeClass.IotoriiNode.HandleIncomingSetHlmac: asks for an address of 1 to 255 ids and, if the table takes it, for room for two records and at most 254 neighbours to send to; what a smaller payload does is stated by SendSetHlmac, and 255 or more recipients by SendLoopEnds and CountOthers.
- NodeClass.IotoriiNode.HandleSetHlmacTimer: asks for room for two records and at most 254 neighbours for the same reason.
- NodeClass.IotoriiNode.Operation: asks the same of a packet that assigns an address; a node does not hear its own packets, so the sender is another node.
- Wire.EncodeUnicast: asks for a buffer the payload fits, where the program checks four bytes less.
- Csma.CsmaOutput.OutputPacket: asks that each listed queue is an entry in use, which PoolsConserved shows.
- Outbox.HandedOnce: the condition is on the moments of hand-over; the program does not enforce it. HandedOnceWhen is the equivalence for any backoff period.
- RoundOutbox.CleanRunIsRound: assumes clean hand-overs, the condition of HandedOnceWhen, and that a hand-over arrives once at most; when within CSMA's attempts it arrives is left open.
- RoundChain.FirstShareStays: is about an edge that stays in the tree; where the tree changes FlowBalance says round by round what is recorded.
- Without clean hand-overs, what a whole round then does is shown by ShareTwice and DuplicateBreaksDetection only.
- Outbox.EntriesLeaveInOrder: says nothing about how often an entry is handed over before it leaves, since DuplicatedWhen shows that there is no bound of one.
