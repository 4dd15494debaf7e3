# Verified model of a distance-vector router and a file-sharing peer

The larger part models the router of lab5: its routing table, the byte order of its packets, its main
loop with one failure timer per neighbour, and the network that a number of such routers form. The
smaller part models lab2's file-sharing peer: its linked connection table, its file transfer and its
text messages. Costs, ids and counters are natural numbers; `Bounds` says exactly for which link costs the
32-bit sums of the source never wrap around (links up to 429496629 are always small enough).

How the files fit together:

- `Protocol`, `TableSpec`, `TableLaws`: constants, one route update as a function on rows, and its laws
- `RoutingTables`, `Wire`, `Routers`: the array and counter of `routingtable.c`, the packet structs of
  `endian.c` as bytes of either byte order, and the main loop of `router.c`, as classes whose methods are
  proved against `TableSpec`, `Wire` and `NodeSpec`
- `NodeSpec`, `NodeRuns`: one router with its clock and timers, over every history of iterations
- `Graph`, `Network`, `Simulation`, `Worlds`: link costs and walks, the network as a transition system, and
  the proof that whatever all routers do together, over any run, is a run of that system
- `Soundness`, `SpareSlots`, `Bounds`: invariants of every run, with packets lost, duplicated and reordered
  and neighbours declared dead at any time
- `FifoRuns`, `LoopFreedom`, `SplitHorizon`, `Convergence`, `FairRuns`, `Quiescence`: runs without failures,
  where links keep the order of packets (some may still be lost) and nobody is declared dead
- `Deaths`: what the network learns of a neighbour that was declared dead
- `Trees`: networks without circles, in which no run forms a loop, and how circles make loops
- `Clocks`: routers under a common clock. Each has its own history, so `NodeRuns` applies to all of them,
  and while every neighbour is heard in time nobody is declared dead, so `Convergence` applies too
- `Examples`, `DetourExample`, `LoopExample`, `StarExample`, `LateChangeExample`: runs of networks of four
  routers that show what the theorems leave open
- `ConnectionSpec`, `ConnectionTables`, `Transfers`, `Messages`: lab2

Where the code departs from its documentation, the model follows the code:

- `InitRoutingTbl` loops one slot too far and puts the self-route behind the visible window. The table is the
  documented one exactly when the slot after the last neighbour holds the router's own id with cost 0
  (`TableSpec.InitShowsDocumentedTable`), and that condition decides the soundness of all runs
  (`SpareSlots.RunsAreSoundExactly`). With nine neighbours the self-route is written past the array, with
  fewer it is not (`RoutingTables.RoutingTable.InitRoutingTbl`). Most theorems about networks therefore start
  from answers with such spare slots and at most eight neighbours (`Graph.WellFormed`); every theorem about
  networks excludes a router with nine neighbours, for example ten fully meshed routers. The slot is not converted from network order either
  (`Wire.InitConversion`).
- The result of `UpdateRoutes` can be 0 although the table changed: line 60 resets the flag
  (`TableLaws.FlagMeetsDocumentation` says exactly when, `StarExample.FlagIsErasedInRun` that it happens).
- A newly installed route is not capped at `INFINITY`. Costs are therefore compared up to `INFINITY`
  (`Protocol.Sat`). It is also why split horizon can matter between two routes that both say
  "unreachable" (`DetourExample.RunsCanDiffer`), and only there (`SplitHorizon.RunsAgreeExactly`), and why
  tables can still change after convergence (`LateChangeExample.ChangeAfterConvergence`,
  `Quiescence.TablesStayExactly`).
- A packet from a router that is not a neighbour is handled with the cost of the spare slot and would set a
  timer behind the arrays (`Routers.Router.HandlePacket`). No such packet ever exists
  (`Worlds.PacketsCanBeHandled`).
- `terminateConnection` never compares the last connection and closes it when nothing else matches
  (`ConnectionSpec.PickIsRight`, `ConnectionSpec.AbsentDescriptorClosesLast`).
- A socket whose connection is refused, by the peer or for lack of room or of a name, is never closed
  (`ConnectionSpec.LeaksExactly`).
- The upload header is sent with one call whose result is not looked at, and the send pointer moves back when
  `write` reports an error. An upload therefore arrives exactly when its name is one word, that call takes
  the whole header, the receiver's first read takes nothing but the header, and `write` never fails before
  the last byte
  (`Transfers.UploadsArriveExactly`).

## Model

| member | source | states |
|---|---|---|
| TableSpec.InitShowsDocumentedTable | lab5/src/routingtable.c:22-33 | the initial window is the documented one (neighbours and self-route) exactly when the slot after the last neighbour is (own id, 0) |
| TableSpec.InitHasSelfRoute | lab5/router.h:22-23 | irrespective of row order: the self-route is in the initial table under exactly that condition |
| TableSpec.InitOnZeroedResponse | lab5/src/routingtable.c:24-32 | with zeroed spare slots router 1 has no route to itself and a free route to router 0 |
| TableSpec.UpdatePointwise | lab5/src/routingtable.c:49-105 | for packets with distinct destinations the nested loops act on each destination on its own: forced update, shorter route, split horizon, new route |
| TableSpec.UpdateOrderIndependent | lab5/src/routingtable.c:49-105 | permuting the rows of a packet gives the same routes |
| TableSpec.UpdateExtends | lab5/src/routingtable.c:97-101 | destinations are never removed or moved, new ones are appended, distinct destinations stay distinct |
| TableLaws.MergeInNumbers | lab5/src/routingtable.c:55-90 | which known rows a row of a packet changes, to which cost (the sum, 999 standing for all sums from 999 on), and when the flag is set and reset |
| TableLaws.FlagExact | lab5/src/routingtable.c:46-106 | the result is 1 exactly when some row changes the table and no later row hits the resetting branch |
| TableLaws.TableChangeExact | lab5/src/routingtable.c:49-105 | the table differs afterwards exactly when some row, judged against the table before the call, changes it |
| TableLaws.FlagMeetsDocumentation | lab5/src/routingtable.c:57-61 | 1 is never wrong; the flag is right exactly unless every change is followed by a reset |
| TableLaws.FlagErasedExample | lab5/src/routingtable.c:58-60 | a packet of two rows that changes the table and is reported as 0 |
| StarExample.FlagIsErasedInRun | lab5/src/routingtable.c:58-60 | a run of four routers in which the middle one loses two neighbours: a delivery changes the table and is reported as 0 |
| TableLaws.UpdateIdempotent | lab5/src/routingtable.c:44-107 | hearing the same packet twice leaves the table as after the first time, and the second call returns 0 |
| TableLaws.UpdateKeepsSelfRoute | lab5/src/routingtable.c:73-74 | no update from another router touches the self-route |
| TableLaws.PlainAgreesExactly | lab5/src/routingtable.c:73-88 | the update without the split-horizon test gives the same table exactly when the test rejects no row whose sum is smaller |
| RoutingTables.RoutingTable.InitRoutingTbl | lab5/src/routingtable.c:22-33 | the array after the loop as written: visible window, and self-route one slot behind it, which is past the array exactly with nine neighbours |
| RoutingTables.RoutingTable.UpdateRoutes | lab5/src/routingtable.c:44-107 | the loop over the packet computes the specified table and flag, all accesses in bounds |
| RoutingTables.RoutingTable.HandleEntry | lab5/src/routingtable.c:50-104 | the inner search merges into the first matching row or appends |
| RoutingTables.RoutingTable.MergeRow | lab5/src/routingtable.c:55-90 | the branches implement the merge rule; a changed row goes over the sender at the sum or at 999, whichever is less; the branch of lines 76-79 is never taken |
| RoutingTables.RoutingTable.ConvertTableToPkt | lab5/src/routingtable.c:115-125 | the filled struct reads as the sender's id and exactly its rows; slots past them keep their bytes |
| RoutingTables.RoutingTable.UninstallRoutesOnNbrDeath | lab5/src/routingtable.c:144-151 | exactly the routes over the dead neighbour get cost INFINITY, which is 999 |
| Wire.SwapMeetsNetworkOrder | lab5/endian.c:36-37 | a converted word carries its number in network order on every host, and converting twice restores it |
| Wire.WordsTravel | lab5/endian.c:36-37 | on every host a converted word has the bytes of its number with the most significant first, and a word received with these bytes is read as the number |
| Wire.SentAsRead | lab5/endian.c:33-46 | what a host sends has each number of its struct in network order and in the field of its own, and says nothing else |
| Wire.ReadAsReceived | lab5/endian.c:52-66 | what a host reads after the conversion is exactly what the bytes say in network order, field by field |
| Wire.NetworkHostsReadDirectly | lab5/endian.c:33-66 | a host of the network's byte order reads the sent bytes as the sender's packet without any conversion, and is read so |
| Wire.RoundTrip | lab5/endian.c:33-66 | whatever the byte orders of sender and receiver, the receiver reads the sender's packet, and rows past no_routes keep their bytes |
| Wire.UpdatePacket.HtoN | lab5/endian.c:33-46 | the in-place conversion, bounded by the field it converts last: the struct then says to the network what it said to the host |
| Wire.UpdatePacket.NtoH | lab5/endian.c:52-66 | the in-place conversion, bounded by the field it converts first: the struct then says to the host what it said to the network |
| Wire.InitPacket.NtoH | lab5/endian.c:17-27 | converts the neighbours and leaves the other slots alone |
| Wire.InitConversion | lab5/endian.c:17-27 | number, neighbours and costs are read as sent in network order; a spare slot sent as (me, 0) is read so exactly when me reads the same in both byte orders |
| Soundness.AlwaysSound | lab5/src/routingtable.c:44-107 | in every run each row in a table or packet stands for an actual walk, destinations are distinct, self-routes are there |
| Soundness.CostsAreNeverTooGood | lab5/src/routingtable.c:44-107 | under any loss, duplication, reordering and timeouts a finite cost is that of an actual walk over the next hop, and no row beats the true distance |
| Soundness.AdvertsAreNeverTooGood | lab5/src/routingtable.c:115-125 | the same for every row in flight |
| SpareSlots.RunsAreSoundExactly | lab5/src/routingtable.c:22-33 | all runs of a network are sound exactly when every spare slot holds the router's own id with cost 0 |
| SpareSlots.RunsAreHonestExactly | lab5/src/routingtable.c:22-33 | in all runs every row has a walk of its cost and first hop exactly when the rows made of the spare slots have one |
| SpareSlots.ZeroedSlotsAreUnsound | lab5/src/routingtable.c:24-28 | two routers with zeroed spare slots: a claimed route that no walk supports, and a destination listed twice |
| Soundness.DestinationsAreDistinctAndFit | lab5/src/routingtable.c:97-101 | destinations in every table and packet are pairwise distinct and at most as many as there are routers |
| Soundness.AppendsStayInBounds | lab5/src/routingtable.c:97-101 | in every run, also halfway through a packet, the table fits into MAX_ROUTERS rows |
| Soundness.TablesAreStable | lab5/src/routingtable.c:44-151 | over any continuation of a run rows keep their place and destination, and (me, me, 0) stays |
| Bounds.AlwaysBounded | lab5/src/routingtable.c:55-103 | in every run a cost is at most what is handed on along a path of routers without a direct link to the destination, the last link counting for at least INFINITY |
| Bounds.AlwaysTightlyBounded | lab5/src/routingtable.c:55-103 | without failures a cost is at most that of such a path |
| Bounds.BoundsAreReached | lab5/src/routingtable.c:97-101 | both bounds are reached for every such path, the second one without failures |
| Bounds.NoSumWrapsAround | lab5/src/routingtable.c:57-100 | in no run a sum costToNbr + entry.cost exceeds an unsigned int, exactly when no such path and one link more do |
| Bounds.RowsFitWords | lab5/src/routingtable.c:120-124 | in every run every row can be stored into a packet, exactly when all ids and such paths fit into an unsigned int |
| Bounds.SmallLinksFit | lab5/src/routingtable.c:57-100 | both conditions hold when links cost at most 429496629 |
| Deaths.DeadRoutesCost999 | lab5/src/routingtable.c:144-151 | in every run, from a declaration until the neighbour is heard again, all routes over it cost 999, in the table and in all packets sent meanwhile |
| Deaths.BadNewsTravels | lab5/src/routingtable.c:55-72 | whoever goes to a destination over the sender of a packet that says 999 about it says 999 afterwards, unless its cost is just the sum |
| FifoRuns.AlwaysOrdered | lab5/src/routingtable.c:55-103 | without failures, costs being compared up to INFINITY: a row over v costs at least the link plus v's own cost, and packets are no better than what their senders know |
| FifoRuns.RoutesNeverGetWorse | lab5/src/routingtable.c:55-90 | without failures forced updates never raise a cost below INFINITY: routes are only gained or improved |
| LoopFreedom.RoutesAreLoopFree | lab5/src/routingtable.c:55-103 | without failures, at every moment, following next hops from a finite route visits no router twice, ends at the destination and costs no more than promised; links may cost 0 |
| LoopExample.LoopAfterFailure | lab5/src/routingtable.c:73-90 | after one timeout, with all packets in order, three routers forward in a circle on finite routes |
| FifoRuns.OnlyUnreachableRowsAreBitten | lab5/src/routingtable.c:73-74 | where the test rejects a smaller sum, the receiver's cost is above INFINITY and the sum at least INFINITY |
| FifoRuns.SplitHorizonLosesNothing | lab5/src/routingtable.c:73-88 | a delivery has the same effect without the test exactly when no returning row meets a row above INFINITY that it beats |
| FifoRuns.SplitHorizonKeepsCosts | lab5/src/routingtable.c:73-88 | with or without the test finite routes come out the same and unreachable ones stay unreachable |
| SplitHorizon.RunsAgreeExactly | lab5/src/routingtable.c:73-88 | a run without failures passes through the same states with and without split horizon exactly when none of its deliveries has a returning row that beats one above INFINITY |
| SplitHorizon.CostsStayBelowExactly | lab5/src/routingtable.c:97-101 | without failures no cost ever exceeds INFINITY exactly when no path along which costs are handed on does |
| SplitHorizon.RunsAgree | lab5/src/routingtable.c:73-88 | in such networks all runs without failures are identical with and without split horizon |
| DetourExample.RunsCanDiffer | lab5/src/routingtable.c:73-88 | four routers, all links below INFINITY, where the two differ |
| Convergence.RoundsHelp | lab5/src/routingtable.c:44-107 | after k rounds every route is at least as good as every walk of k + 1 hops, for any interleaving |
| Convergence.Converges | lab5/src/router.c:108-140 | from the end of round n - 2 on every route is exactly the shortest distance with a next hop on a shortest walk, and unreachable routers have none |
| FairRuns.AnotherRound | lab5/src/router.c:134-140 | every run without failures can complete one more round |
| FairRuns.ConvergenceIsReachable | lab5/src/router.c:108-140 | every network has a run after which all routes are exact |
| Quiescence.DeliveriesChangeExactly | lab5/src/routingtable.c:55-103 | after convergence a packet in flight changes its receiver's table exactly when one of its rows takes a route above INFINITY down (a different sum from the next hop, or a smaller one that split horizon lets pass), and is reported as 0 otherwise |
| Quiescence.TablesStayExactly | lab5/src/router.c:108-140 | over a continuation without failures the tables end as they were after convergence exactly when none of its deliveries does that |
| Quiescence.ChangesAreFew | lab5/src/routingtable.c:55-103 | no continuation has more steps that change a table than there were routes above INFINITY, and each leaves fewer of them |
| Quiescence.TablesStayForever | lab5/src/router.c:108-140 | when no route is above INFINITY after convergence, no continuation without failures changes a table |
| Quiescence.DeliveriesAreQuiet | lab5/src/routingtable.c:44-107 | in networks where every reachable router is nearer than INFINITY, every delivery after convergence changes nothing and is reported as 0 |
| LateChangeExample.ChangeAfterConvergence | lab5/src/routingtable.c:83-88 | four routers that have had their two rounds, and a route of cost 5000 that then still changes to one of cost INFINITY over another router |
| Trees.TreesHaveNoLoops | lab5/src/routingtable.c:73-90 | in a network without circles no run forms a loop, whatever is lost, doubled, reordered or declared dead |
| Trees.TreeRoutesLead | lab5/src/routingtable.c:73-90 | there, in every run, every route leads to its destination, over the only simple path |
| Trees.CircleMakesLoop | lab5/src/routingtable.c:73-90 | on every circle where going around from x to its other neighbour d, and from the first router after x back over x to d, cost less than INFINITY each, some run makes two neighbours forward to each other |
| Trees.LoopFreeExactly | lab5/src/routingtable.c:73-90 | where circles cost less than INFINITY, all runs are free of loops exactly when there are no circles |
| Trees.SmallLinksAreCheap | lab5/ni.h:31-34 | links of at most 110 are enough for that |
| Trees.FarMeshesHaveNoLoops | lab5/src/routingtable.c:73-90 | circles of costlier links need not make loops: routers fully meshed over equal links of INFINITY or more have none in any run |
| NodeRuns.LinkIsLookedUp | lab5/src/router.c:113-118 | a neighbour's packet is handled with the cost of its slot, any other one with the cost of the spare slot |
| NodeRuns.DeadStayUninstalled | lab5/src/router.c:118-149 | while a neighbour is marked as dead, every route over it costs INFINITY, whatever others send |
| NodeRuns.DeadlineIsAfterLastPacket | lab5/src/router.c:122-124 | a timer expires FAILURE_DETECTION after the last packet from its neighbour or the start |
| NodeRuns.DetectorIsNotHasty | lab5/src/router.c:141-149 | a neighbour is declared dead only when nothing from it was handled for three seconds, or since the start, and the router has run for three seconds |
| NodeRuns.ReportNeedsThreeSeconds | lab5/src/router.c:85-124 | the timer of a neighbour can be reported exactly when the router has run, and has handled nothing from the neighbour, for three seconds |
| NodeRuns.SilenceIsDeclared | lab5/src/router.c:141-149 | after three such seconds an iteration can declare the neighbour dead, if it is not marked yet |
| NodeRuns.UpdatesAreReports | lab5/src/router.c:119-122 | the counter of the main loop is the number of packets that UpdateRoutes reported as 1 |
| NodeRuns.ReportsMissHiddenChanges | lab5/src/router.c:119-122 | that is at most the number of packets that changed the table, and this number exactly when no change was hidden by a reset flag |
| NodeRuns.DetectorDoesNotRepeat | lab5/src/router.c:143-148 | between two declarations of a neighbour there is a packet from it |
| NodeRuns.RoutesAreFresh | lab5/src/routingtable.c:55-103 | a route over v costs link plus v's last offer, or INFINITY if v was declared dead since, or is the initial row if v never mentioned the destination; costs are compared up to INFINITY |
| Routers.Router.constructor | lab5/src/router.c:61-94 | the state after start: converted answer, initial table, all timers armed for three seconds, nobody marked |
| Routers.Router.HandlePacket | lab5/src/router.c:108-129 | conversion, neighbour search, update and re-arming for three seconds give the specified next state, for the packet that the bytes say in network order; for a sender that is no neighbour, the update with the spare slot's cost and a write behind the timers |
| Routers.Router.FillPacket | lab5/src/router.c:135-139 | the bytes sent say in network order, field by field, this router's table, addressed to the neighbour, and are read so by any host |
| Routers.Router.HandleTimeout | lab5/src/router.c:134-150 | every neighbour gets the table as it was, then exactly the reported, unmarked neighbours are uninstalled and marked |
| Simulation.BootMirrorsInit | lab5/src/router.c:61-62 | a router that starts is the router of the network's initial state |
| Simulation.PacketIsDelivery | lab5/src/router.c:108-125 | a router's handling of a packet is the network's delivery step |
| Simulation.IdleIsAdvertisementAndTimeouts | lab5/src/router.c:134-150 | an idle iteration is one advertisement followed by the timeouts it finds |
| Worlds.WorldsAreRuns | lab5/src/router.c:97-152 | whatever all routers do together, in any interleaving and with packets lost or doubled, is a run of the network, every router with its table |
| Worlds.PacketsCanBeHandled | lab5/src/router.c:108-129 | in every such run every packet in flight goes to a router that has its sender as a neighbour and room for its routes |
| Worlds.TablesCanBeSent | lab5/src/router.c:134-140 | in every such run every row fits into a packet, if the paths of the network fit into an unsigned int |
| Clocks.RoutersHaveHistories | lab5/src/router.c:97-152 | in a world under a common clock the acts of each router are a history of it, ending in the node that the world has |
| Clocks.DeadStayUninstalledEverywhere | lab5/src/router.c:118-149 | every router of every world keeps all routes over neighbours that it marks as dead at INFINITY |
| Clocks.RoutesAreFreshEverywhere | lab5/src/routingtable.c:55-103 | every route of every router says what its next hop said last, costs being compared up to INFINITY |
| Clocks.TimerRunsExactly | lab5/src/router.c:122-124 | a timer has not expired exactly when something from its neighbour was handled less than FAILURE_DETECTION ago, or the router started less than that ago |
| Clocks.PunctualIsFifo | lab5/src/router.c:141-149 | when every router that looks at its timers has heard every neighbour within FAILURE_DETECTION, and packets arrive in order, nobody is ever declared dead: the world is a run without failures |
| Clocks.PunctualWorldsConverge | lab5/src/router.c:97-152 | the tables of such routers, with their timers, are exact from the end of round n - 2 on |
| ConnectionTables.ConnectionTable.Add | lab2/rfss.c:86-117 | appends to the acyclic list and counts it |
| ConnectionTables.ConnectionTable.Delete | lab2/rfss.c:127-150 | removes exactly the connection of the given number, keeping the order of the others |
| ConnectionTables.ConnectionTable.HasHost | lab2/rfss.c:183-191 | true exactly when some connection has that host |
| ConnectionTables.ConnectionTable.ConnectMachine | lab2/rfss.c:212-284 | adds one connection exactly when there are fewer than five, none with that host, the host is another one and accepts; a socket is made exactly when the first three hold |
| ConnectionTables.ConnectionTable.EstablishConnection | lab2/rfss.c:490-506 | adds one connection, under the peer's name and address, exactly when there are fewer than five and the peer has a name |
| ConnectionTables.ConnectionTable.TerminateMachine | lab2/rfss.c:294-312 | closes and removes the same connection, or reports -1 |
| ConnectionTables.ConnectionTable.TerminateConnection | lab2/rfss.c:515-533 | closes and removes the connection that the truncated search picks |
| ConnectionTables.ConnectionTable.ExitMachine | lab2/rfss.c:469-480 | closes all sockets in list order and leaves an empty list |
| ConnectionSpec.ConnectAddsExactly | lab2/rfss.c:212-284 | connecting adds just the new connection, exactly when there are fewer than five, none with its host, and the host is another one that accepts |
| ConnectionSpec.EstablishAddsExactly | lab2/rfss.c:490-506 | a peer is added under its name and address exactly when there is room and it has a name |
| ConnectionSpec.EveryConnectionWasMade | lab2/rfss.c:212-506 | over any operations every connection has the host, address and descriptor of a successful request or of a peer that connected |
| ConnectionSpec.TwinsComeFromPeers | lab2/rfss.c:235-238 | of two connections with one host the later one was made by a peer |
| ConnectionSpec.ConnectedHostIsRefused | lab2/rfss.c:235-238 | until the descriptor of a connection is closed, asking for its host again changes nothing, also when a peer had made it |
| ConnectionSpec.PickIsRight | lab2/rfss.c:518-523 | the search picks the connection of the descriptor exactly when the descriptor is in the table |
| ConnectionSpec.AbsentDescriptorClosesLast | lab2/rfss.c:518-530 | for a descriptor in no connection the last connection is closed |
| ConnectionSpec.PeerTerminatesExactly | lab2/rfss.c:515-533 | with distinct descriptors exactly the right connection goes |
| ConnectionSpec.DescriptorsAreKept | lab2/rfss.c:86-150 | over any operations: at most five connections, distinct descriptors, every descriptor put in is still there or was closed exactly once |
| ConnectionSpec.LeaksExactly | lab2/rfss.c:253-283 | a socket gets lost exactly when its connection is refused: by the peer after the socket was made, or for lack of room or of a name |
| ConnectionSpec.SocketsAreAccountedFor | lab2/rfss.c:212-506 | over any operations every socket ever opened is in the table, closed or lost in that way, exactly one of the three |
| Transfers.SendFile | lab2/rfss.c:397-444 | what one unchecked call takes of the header, then the portions of the file as the inner loop sends them, under every schedule of partial, empty and failing calls |
| Transfers.WriteAll | lab2/rfss.c:427-443 | the inner loop sends what the pointer arithmetic says, failing writes included, or reaches in front of the buffer |
| Transfers.ChunksIntactExactly | lab2/rfss.c:427-443 | every chunk of n bytes is sent byte by byte exactly when write does not fail before it is complete |
| Transfers.OneFailureRepeatsAByte | lab2/rfss.c:431-440 | one byte taken, one failure, one byte taken: the bytes 1 2 go out as 1 1 |
| Transfers.FilesIntactExactly | lab2/rfss.c:407-444 | every file of a given length is sent byte by byte exactly when write never fails before its last byte, however reads and writes are split |
| Transfers.ReceiveFile | lab2/rfss.c:640-670 | writes a prefix of the stream of at least the announced size, or all of it when it is shorter; exactly the stream, with remaining count 0, when it has the announced size |
| Transfers.ExactUnderEverySchedule | lab2/rfss.c:650-668 | exactly the announced bytes are written under every schedule iff they are there and nothing follows, or the file is empty, or reads take single bytes |
| Transfers.FirstReadDecides | lab2/rfss.c:722-748 | header and file sent in full arrive under their name, if it is one word, iff the first read takes exactly the header; a shorter read misses the end of the name, a longer one leaves fewer bytes than announced |
| Transfers.ReceiveUpload | lab2/rfss.c:736-748 | name and size are taken from the message as a C string, then the announced bytes as far as they are there |
| Transfers.ArrivesExactly | lab2/rfss.c:392-748 | an upload arrives iff its name is one word, the one call takes the whole header, the first read takes just the header, and the file is sent byte by byte |
| Transfers.UploadsArriveExactly | lab2/rfss.c:392-748 | for all files of one length at once: a condition on the name and the schedules alone |
| Transfers.ShortFirstSend | lab2/rfss.c:397-397 | when the call for the header takes one byte only, the file follows that byte and no upload arrives, whatever the receiver does |
| Transfers.Transfer | lab2/rfss.c:392-748 | header printed, sent, split and read, file sent and received: the file arrives exactly under these four conditions, for every name without zero characters, all data and every schedule |
| Messages.PrintFileList | lab2/rfss.c:560-580 | prints keyword, number and names with single spaces between them; exactly when it fits into the 1024 bytes of the buffer, which it does for 20 names of 49 characters |
| Messages.Tokenizer.Next | lab2/rfss.c:736-765 | successive strtok calls give out the words of the message in order |
| Messages.ReadFileList | lab2/rfss.c:759-768 | shows as many words as the number says, nothing where there are no more |
| Messages.AtoiOfDec | lab2/rfss.c:760-760 | atoi reads back what %d printed |
| Messages.DecOfValue | lab2/rfss.c:562-562 | %d prints the only text without leading zeros that stands for its number |
| Messages.AtoiReads | lab2/rfss.c:743-760 | atoi skips blanks, heeds a sign, and stops at the first character that is no digit |
| Messages.WordsKeepLetters | lab2/rfss.c:736-765 | the words hold all characters of the message but its spaces, in their order |
| Messages.JoinedWords | lab2/rfss.c:736-765 | words joined with single spaces are found again by strtok exactly when all are non-empty and free of spaces |
| Messages.HeaderIsJoined | lab2/rfss.c:392-392 | the header of an upload is the keyword UPLOADTOU, the size and the name with single spaces |
| Messages.FileListRoundTrip | lab2/rfss.c:560-768 | the receiver shows exactly the list sent iff every name is non-empty and free of spaces |
| Messages.UploadHeaderRoundTrip | lab2/rfss.c:392-743 | size and name arrive iff the name is non-empty and free of spaces, and for names of the name table the header has at most 71 characters |

## Left out

- Sockets, `select`, timer file descriptors, the log file and `PrintRoutes`: replaced by packets, reported timers and a clock as parameters; `select` failing is not modelled.
- The wait inside `select` and its reuse across iterations: iterations may happen at any time.
- Convergence after failures: costs may count up to INFINITY there, and routes may form loops; `Soundness`, `Bounds`, `NodeRuns` and `Trees` speak about such runs.
- Routers with nine neighbours, for example ten fully meshed ones: no network of `Graph.WellFormed`, because the source writes their self-route past the array.
- Trees.LoopFreeExactly: assumes that circles cost less than INFINITY; which networks with costlier circles form loops is left open beyond `Trees.FarMeshesHaveNoLoops`.
- The PATHVECTOR fields of `struct route_entry`: no code uses them.
- Network.Next: packets travel as numbers, not bytes; `Wire.RoundTrip` and `Routers.Router.FillPacket` show that nothing is lost by that.
- Quiescence.DeliveriesAreQuiet: assumes distances below INFINITY; `Quiescence.DeliveriesChangeExactly` covers the others.
- Quiescence.TablesStayForever: assumes that no route is above INFINITY; `Quiescence.TablesStayExactly` covers the others.
- RoutingTables.RoutingTable.InitRoutingTbl: with nine neighbours the write past the array is reported and left undone; more neighbours than other routers are not modelled.
- Routers.Router.constructor: requires at most eight neighbours, because with nine the source writes the self-route past its array and what that overwrites is not modelled.
- Routers.Router.HandlePacket: requires that the new rows fit into the table, which they do in every run (`Worlds.PacketsCanBeHandled`); the write behind the timers is reported and left undone.
- lab2's threads and their races: table operations are taken as atomic and sequential; allocation always succeeds, and freed memory is not modelled.
- ConnectionTables.ConnectionTable.Delete: requires a number inside the list, because for others the source follows a null or uninitialised pointer.
- ConnectionTables.ConnectionTable.TerminateMachine: requires ids from 1 on, because for others the source follows an uninitialised pointer.
- ConnectionTables.ConnectionTable.ConnectMachine: creating the socket always succeeds.
- Host name resolution, the handshake and the answers of `send`, `read`, `write` and `recv`: parameters.
- Transfers.SendFile: stops where the source would send bytes from in front of its buffer; portions larger than the 1400 bytes of the buffer are not modelled.
- Transfers.Transfer: the header is taken to fit into the sender's buffer of 1400 bytes; the source prints it there without a check.
- Transfers.ReceiveFile: returns where the source would wait for ever, with a positive remaining count.
- Transfers.ReceiveUpload: requires that the message has a size; `atoi` of a missing word is undefined in the source. A message that fills the receiver's buffer is taken to end there.
- Messages.ReadFileList: requires that the message has a number; `atoi` of a missing word is undefined in the source. Printing into the buffer that is being read is taken to append, and numbers too large for an int are not modelled.
- The rate calculation, the command prompt and generating files: no part of the protocols.
- lab1, lab3, lab6 and iperf: an easier copy of lab2's table, a forwarding pump, a test topology and documentation.
