# link-state-router in Dafny

A model of the sequential core of link-state-router, a simulated
OSPF-style router written in Java. Each router keeps a link-state database
that maps every originator's simulated IP address to its link-state
advertisement (LSA). It also keeps a table of at most four ports to its
neighbours. Routers exchange three kinds of SOSPF packets:

- HELLO, which opens a link;
- link-state update, which floods LSAs;
- teardown, which closes a link.

The router answers shortest-path queries with Dijkstra's algorithm over
its database.

The model follows the source's structure, one module per part:

- `JavaInt`: Java `int` and `short`. `Wrap32` is Java's two's-complement
  reduction and `Inc32` is `x++` on an `int`.
- `Message`: link descriptions, the SOSPF packet, and `class LSA`. The
  class has `AddLinkDescription`, which edits the object in place.
- `Topology` and `ShortestPath`: the search of `getShortestPath` and
  `getMinimum`, as methods with loop invariants. They run over a value
  snapshot of the database: each originator's list of links.
- `LsaStore`: the database as a value map, with the edits the handlers
  make to it. These are the acceptance rule for received LSAs and the
  two modes of `updateLSA`.
- `PortTable`: the port table as a sequence, with attach, the HELLO
  neighbour add, the TWO_WAY promotion and removal on teardown.
- `Database`: `class LinkStateDatabase`, whose field `store` is a map
  from originator to `LSA` objects. `View()` reads it as values.
- `Node`: `class Router`, with its description, its database, its ports
  and an `outbox` recording every packet sent.
- `Server`: `class ServerThread`. Its methods `UpdateLsa`, `SendLsp` and
  `Run` change the router in place. Each is proved against a function on
  values (`LsaUpdate`, `Flood`, `Handle`), and the properties are proved
  about those functions.

### Modelling choices

- **Port table.** The source declares `ports` as a `Link[4]` array in
  `Router.java`, but `ServerThread` uses it as a list (`size()`, `add`,
  `remove(i)`). The model uses one sequence of at most four links for
  both. The occupied slots are the first `|ports|` ones. Slot `j` of the
  array is `Slot(ports, j)`, so the lowest free slot is always `|ports|`.
- **Invariant.** `Router.Valid()` holds at most four ports, to distinct
  neighbours, and every LSA filed under its own originator. Attach and
  all three handlers keep it.
- **Sequence numbers.** Sequence-number increments are Java `int`
  increments. They wrap from `Integer.MAX_VALUE` to `Integer.MIN_VALUE`.
  The relaxation sum `distanceFromSource + weight` is written with
  `Wrap32`, and it is proved not to wrap under the search's precondition.
- **NullPointerException paths.** A run of `updateLSA` that hits a
  NullPointerException is the `None` result of `LsaUpdate`. This happens
  when there is no own LSA, or none left after removing the neighbour's
  entry. The handler then stops at that point, as the exception does in
  `run()`.
- **Teardown error.** A teardown from a router with no port is the
  `deleted == false` result of `ReceiveTeardown`. The handler stops after
  the confirmation, where the source throws a `RuntimeException`.
- **Iteration bound.** The search's loop runs at most `|g| + |SelfLinked(g)|`
  times, where `g` is the snapshot. It is not bounded by `|g|` alone: a
  router that advertises a real (non-sentinel) link to itself is
  re-added to the frontier while its own links are relaxed. It has not
  been settled yet at that point, so it is extracted a second time. The
  second extraction changes nothing else: `RelaxLinks` ensures that relaxing a
  settled router's links leaves the search as it was, and
  `ReextractionIsNoOp` derives from that that the whole iteration only
  removes the router from the frontier.

## Model

| member | source | states |
|---|---|---|
| JavaInt.Wrap32 | src/main/java/socs/network/node/LinkStateDatabase.java:62 | Java's reduction of an exact sum to `int`; it is the identity on values in the `int` range |
| JavaInt.Inc32 | src/main/java/socs/network/node/ServerThread.java:59 | `x++` on an `int`: one more, except that `Integer.MAX_VALUE` wraps to `Integer.MIN_VALUE` |
| JavaInt.WrapShift | src/main/java/socs/network/node/ServerThread.java:59 | adding to a wrapped sequence number and wrapping again equals wrapping once, so later increments compose with earlier ones |
| Message.LSA.constructor | src/main/java/socs/network/message/LSA.java:11-13 | a fresh LSA has sequence number `Integer.MIN_VALUE` and no links |
| Message.LSA.AddLinkDescription | src/main/java/socs/network/message/LSA.java:25-28 | appends exactly one description with the given address, port and weight at the end; keeps the earlier ones in order; leaves the originator and sequence number alone; returns the receiver itself |
| Database.LinkStateDatabase.View | src/main/java/socs/network/node/LinkStateDatabase.java:15 | the database's values have the same originators as the store, and each is filed under its own originator while the database is valid |
| Database.LinkStateDatabase.constructor | src/main/java/socs/network/node/LinkStateDatabase.java:19-23 | a new database has exactly one entry, under the router's own simulated IP, holding the self entry |
| Database.LinkStateDatabase.InitLinkStateDatabase | src/main/java/socs/network/node/LinkStateDatabase.java:120-130 | the first LSA: the router's own simulated IP, sequence number `Integer.MIN_VALUE`, one description of itself with port -1 and weight 0 |
| Database.LinkStateDatabase.GetShortestPath | src/main/java/socs/network/node/LinkStateDatabase.java:29-105 | the reported path ends at the destination, and each hop is an advertised link of the weight reported for it; it is a route from this router exactly when the destination is reachable, and then no route is lighter; otherwise it is the destination alone |
| ShortestPath.GetMinimum | src/main/java/socs/network/node/LinkStateDatabase.java:108-117 | null (None) exactly when the frontier is empty; otherwise a frontier router whose distance is at most every frontier router's distance |
| ShortestPath.RelaxStep | src/main/java/socs/network/node/LinkStateDatabase.java:56-68 | sentinel links (port -1) and settled targets leave the search unchanged; otherwise the target joins the frontier; distances only go down; a distance changes exactly where the predecessor is set to the current router, and only for the link's target, to the Java int sum of the current distance and the weight |
| ShortestPath.RelaxStepKeeps | src/main/java/socs/network/node/LinkStateDatabase.java:55-70 | relaxing one more link of the extracted router keeps the inner loop's invariant: lowered distances go through that router, and no other predecessor changes |
| ShortestPath.RelaxLinks | src/main/java/socs/network/node/LinkStateDatabase.java:55-70 | after the inner loop every advertised link of the extracted router leads to a reached router, no farther than the router's distance plus the link's weight |
| ShortestPath.InitialDistances | src/main/java/socs/network/node/LinkStateDatabase.java:38-42 | every originator of the database, and nothing else, starts at `Integer.MAX_VALUE` |
| ShortestPath.InitialInv | src/main/java/socs/network/node/LinkStateDatabase.java:44-46 | the source alone in the frontier, at distance 0 and without predecessor, satisfies the search invariant |
| ShortestPath.SearchStep | src/main/java/socs/network/node/LinkStateDatabase.java:50-71 | one extraction keeps the search invariant: only reached routers have a finite distance; every predecessor is joined by a link whose weight is the difference of distances; settled routers are no farther than the frontier; and either one more router is settled or the frontier shrinks |
| ShortestPath.SettlingKeepsInv | src/main/java/socs/network/node/LinkStateDatabase.java:50-71 | settling a closest frontier router for the first time keeps every part of the search invariant, with that router ranked last |
| ShortestPath.ReextractionIsNoOp | src/main/java/socs/network/node/LinkStateDatabase.java:52-71 | once `RelaxLinks` has run over the links of a router that is already settled, settling it again gives back the search as it was after the extraction: only the frontier changed |
| ShortestPath.FindShortestPath | src/main/java/socs/network/node/LinkStateDatabase.java:29-105 | the whole search and rebuild: the path properties of GetShortestPath, and at most one extraction per router plus one per router that advertises a real link to itself |
| ShortestPath.SearchBound | src/main/java/socs/network/node/LinkStateDatabase.java:49-73 | the number of loop iterations is at most the number of routers plus the number of self-linked routers |
| ShortestPath.RouteLowerBound | src/main/java/socs/network/node/LinkStateDatabase.java:49-73 | once the frontier is empty, every route from the source ends at a settled router whose distance is at most the route's weight |
| ShortestPath.Reverse | src/main/java/socs/network/node/LinkStateDatabase.java:82 | `Collections.reverse`: same length, element k is element n-1-k of the input |
| ShortestPath.WalkBack | src/main/java/socs/network/node/LinkStateDatabase.java:76-81 | the walk starts at the destination, each next router is the predecessor of the previous one, and it stops at a router with none |
| ShortestPath.ReversedWalk | src/main/java/socs/network/node/LinkStateDatabase.java:82 | the reversed walk is a predecessor chain read forwards |
| ShortestPath.HopWeights | src/main/java/socs/network/node/LinkStateDatabase.java:85-103 | the first router gets no weight, the second its distance, the rest the difference of distances; each hop is an advertised link of that weight, and the weights sum to the destination's distance |
| ShortestPath.RebuildPath | src/main/java/socs/network/node/LinkStateDatabase.java:76-103 | the rebuilt path starts at the source exactly when the destination was reached, is then a lightest route, and is the destination alone otherwise |
| ShortestPath.RouteFacts | src/main/java/socs/network/node/LinkStateDatabase.java:76-103 | a chain ending at the destination with weights summing to its distance is a route exactly when the destination is reachable, and no route is lighter |
| LsaStore.AcceptRule | src/main/java/socs/network/node/ServerThread.java:185-190 | a received LSA is stored under its originator exactly when that originator is unknown or the received sequence number is strictly greater; otherwise the store is unchanged; every other originator keeps its entry |
| LsaStore.AcceptAdvances | src/main/java/socs/network/node/ServerThread.java:188-190 | accepting never forgets an originator nor lowers a sequence number, and keeps every LSA filed under its originator |
| LsaStore.AcceptIdempotent | src/main/java/socs/network/node/ServerThread.java:188 | receiving the same LSA twice is receiving it once |
| LsaStore.AcceptAllStep | src/main/java/socs/network/node/ServerThread.java:184-194 | the packet's LSAs are accepted one after the other, in order, and each accepted one joins the flooded list |
| LsaStore.AcceptAllAdvances | src/main/java/socs/network/node/ServerThread.java:184-194 | after a whole packet the store has only advanced and stays keyed; if anything was flooded on, some originator is new or has a higher sequence number |
| LsaStore.FloodedIffChanged | src/main/java/socs/network/node/ServerThread.java:184-194 | nothing is flooded on exactly when the packet leaves the store as it was |
| LsaStore.AddLinkEffect | src/main/java/socs/network/node/ServerThread.java:57-67 | mode 0 fails exactly when there is no own LSA; otherwise it appends exactly the new description at the end of the own LSA, raises its sequence number by exactly one (Java int), and touches no other originator |
| LsaStore.AddLinkKeepsKeyed | src/main/java/socs/network/node/ServerThread.java:87 | mode 0 keeps every LSA filed under its own originator |
| LsaStore.StripAppend | src/main/java/socs/network/node/ServerThread.java:76-83 | the surviving descriptions keep their relative order: stripping distributes over concatenation |
| LsaStore.StripMembers | src/main/java/socs/network/node/ServerThread.java:76-83 | a description survives exactly when it was there and does not lead to the neighbour |
| LsaStore.StripIdempotent | src/main/java/socs/network/node/ServerThread.java:76-83 | stripping a neighbour twice is stripping it once |
| LsaStore.DropNeighbourEffect | src/main/java/socs/network/node/ServerThread.java:57-83 | mode 1 fails exactly when there is no own LSA or the neighbour is the router itself; it always removes the neighbour's entry and keeps every other originator; the own LSA keeps no description of the neighbour and keeps every other one, and its sequence number rises by one plus the number of removed descriptions (Java int) |
| LsaStore.DropNeighbourKeepsKeyed | src/main/java/socs/network/node/ServerThread.java:70-87 | mode 1 keeps every LSA filed under its own originator |
| PortTable.AttachOutcomes | src/main/java/socs/network/node/Router.java:62-93 | attaching to oneself is refused; attaching to an address a port already leads to is refused; otherwise the link is attached exactly when a slot is free; a refused attach leaves the ports unchanged |
| PortTable.AttachFillsLowestFree | src/main/java/socs/network/node/Router.java:79-88 | a successful attach fills the lowest null slot with a link whose remote end has the given process IP, port and simulated IP, status null and weight 0, and leaves every other slot as it was |
| PortTable.AttachKeepsTable | src/main/java/socs/network/node/Router.java:62-93 | attach keeps at most four ports, to distinct neighbours |
| PortTable.ScanPassesOnlyFullTables | src/main/java/socs/network/node/Router.java:71-76 | the duplicate check as written gets past its loop only when all four slots are occupied |
| PortTable.AttachAsWrittenNeverAttaches | src/main/java/socs/network/node/Router.java:71-76 | as written, processAttach never attaches a link |
| PortTable.FirstAttach | src/main/java/socs/network/node/Router.java:71-88 | the first attach of a fresh router throws as written, and attaches to slot 0 with the corrected check |
| PortTable.AddNeighbourRule | src/main/java/socs/network/node/ServerThread.java:117-145 | a HELLO adds a link exactly when no port leads to the sender and fewer than four ports exist, and then only that link, at the end; afterwards the sender has a port unless the table was full |
| PortTable.AddNeighbourKeepsTable | src/main/java/socs/network/node/ServerThread.java:125-145 | the HELLO add keeps at most four ports, to distinct neighbours |
| PortTable.PromoteEffect | src/main/java/socs/network/node/ServerThread.java:167-176 | exactly the ports whose neighbour is the replying router become TWO_WAY; every other port is unchanged |
| PortTable.PromoteKeepsTable | src/main/java/socs/network/node/ServerThread.java:167-176 | promotion keeps the size, the neighbours and the table invariant |
| PortTable.PromoteIdempotent | src/main/java/socs/network/node/ServerThread.java:167-171 | promoting twice is promoting once |
| PortTable.PromoteNone | src/main/java/socs/network/node/ServerThread.java:167-176 | without a port to the replying router promotion changes nothing |
| PortTable.PromoteOne | src/main/java/socs/network/node/ServerThread.java:167-176 | with distinct neighbours promotion changes only the one port to the replying router |
| PortTable.RemoveFirstPort | src/main/java/socs/network/node/ServerThread.java:215-232 | removing the first port of a neighbour keeps the ports before it and shifts the ones after it down, in order; with distinct neighbours no port to it remains and the table invariant holds |
| Node.Router.constructor | src/main/java/socs/network/node/Router.java:22-29 | a new router has its configured simulated IP and port, no ports, and a database holding only its self entry |
| Node.Router.ProcessAttach | src/main/java/socs/network/node/Router.java:62-93 | the loops of processAttach compute exactly `Attach` (corrected duplicate check) and keep the router valid; nothing is sent |
| Node.Router.ProcessStart | src/main/java/socs/network/node/Router.java:98-122 | exactly one HELLO is prepared per port whose neighbour has no status yet (as many as `Unstarted` lists), each from this router's simulated IP, process IP and port; none is prepared exactly when every port has a status; no port or status changes |
| PortTable.UnstartedMembers | src/main/java/socs/network/node/Router.java:102-104 | the ports processStart greets are exactly the occupied ports whose neighbour has no status, each once, lowest first |
| Server.FloodReachesEveryPort | src/main/java/socs/network/node/ServerThread.java:28-46 | flooding sends one link-state update per port, in port order, to that port's neighbour, from this router, carrying that LSA alone |
| Server.FloodAllLength | src/main/java/socs/network/node/ServerThread.java:184-194 | a link-state update sends one packet per port per accepted LSA |
| Server.StripLoopStep | src/main/java/socs/network/node/ServerThread.java:76-83 | one turn of the removal loop, with `i--` after a removal, on values: the cursor sits on the next unvisited description, removing or skipping it gives the same shape one description further on |
| Server.StripDescriptions | src/main/java/socs/network/node/ServerThread.java:76-83 | the removal loop leaves exactly the descriptions not leading to the neighbour, in order, and raises the sequence number once per removed one (Java int) |
| Server.StripTurn | src/main/java/socs/network/node/ServerThread.java:77-82 | one turn of the removal loop keeps the loop's invariant |
| Server.IsNewNeighbour | src/main/java/socs/network/node/ServerThread.java:114-122 | the sender is new exactly when no port leads to it |
| Server.FindPort | src/main/java/socs/network/node/ServerThread.java:215-230 | nothing is found exactly when no port leads to the sender; otherwise the index of the first port that does |
| Server.PortIndex | src/main/java/socs/network/node/ServerThread.java:215-225 | the index found is that of a port |
| Server.PortIndexIsFirst | src/main/java/socs/network/node/ServerThread.java:215-225 | the index is absent exactly when no port leads to the sender, and otherwise names the first such port |
| Server.HandleKeepsInvariants | src/main/java/socs/network/node/ServerThread.java:107-240 | every handler keeps at most four ports to distinct neighbours, and every LSA filed under its own originator |
| Server.HelloKeepsInvariants | src/main/java/socs/network/node/ServerThread.java:113-177 | the HELLO branch keeps the port table and database invariants |
| Server.TeardownKeepsInvariants | src/main/java/socs/network/node/ServerThread.java:215-238 | the teardown branch keeps the port table and database invariants |
| Server.LinkStateUpdateFloodsChanges | src/main/java/socs/network/node/ServerThread.java:181-194 | a link-state update never touches the ports; with at least one port it sends nothing exactly when it leaves the database unchanged |
| Server.TeardownRemovesNeighbour | src/main/java/socs/network/node/ServerThread.java:202-238 | a teardown from a neighbour removes its port and keeps the others in order; afterwards no port and no database entry leads to it; the confirmation is sent first |
| Server.TeardownFromStranger | src/main/java/socs/network/node/ServerThread.java:202-230 | a teardown from a router without a port sends only the confirmation and changes nothing |
| Server.HelloFromNewNeighbour | src/main/java/socs/network/node/ServerThread.java:113-177 | a HELLO from a new neighbour with a free port, answered by a HELLO, leaves it on the last port in state TWO_WAY with the packet's weight, keeping the earlier ports; with an own LSA, that LSA gains the link's description and goes to every port after the response |
| Server.LinkStateUpdateStep | src/main/java/socs/network/node/ServerThread.java:184-194 | one more LSA of the packet: accepted after the earlier ones, and flooded after their floods exactly when it is newer |
| Server.AddLinkSteps | src/main/java/socs/network/node/ServerThread.java:57-67 | mode 0 is the increment followed by the append |
| Server.DropSteps | src/main/java/socs/network/node/ServerThread.java:57-83 | mode 1 is the increment, the removal of the neighbour's entry, then the removal loop on the own LSA, with the increments adding up in Java int arithmetic |
| Server.DropFails | src/main/java/socs/network/node/ServerThread.java:70-76 | mode 1 fails, keeping the store without the neighbour's entry, once no own LSA is left |
| Server.NewLsa | src/main/java/socs/network/node/ServerThread.java:190 | the LSA object a packet delivers is a new object with the sent value |
| Server.ServerThread.SendLsp | src/main/java/socs/network/node/ServerThread.java:25-48 | one packet per port is appended to the outbox, in port order, and nothing else changes |
| Server.ServerThread.UpdateLsa | src/main/java/socs/network/node/ServerThread.java:51-91 | edits the own LSA object in place and files it again: the new database is `LsaUpdate` of the old one, and the returned LSA is present, with that value, exactly when updateLSA returns without an exception |
| Server.ServerThread.IncrementOwn | src/main/java/socs/network/node/ServerThread.java:57-60 | `lsaSeqNumber++` on the own LSA when there is one, and nothing otherwise |
| Server.ServerThread.AddOwnLink | src/main/java/socs/network/node/ServerThread.java:64-67 | mode 0 appends the neighbour's description to the own LSA object, and no other entry changes |
| Server.ServerThread.DropOwnLinks | src/main/java/socs/network/node/ServerThread.java:69-83 | mode 1 after the increment: the database becomes `DropNeighbourUpdate` of the one before the increment, and the own LSA is returned exactly when one is left |
| Server.ServerThread.RemoveEntry | src/main/java/socs/network/node/ServerThread.java:70 | the neighbour's entry leaves the database |
| Server.ServerThread.StripOwn | src/main/java/socs/network/node/ServerThread.java:73-83 | the removal loop on the own LSA object, and no other entry changes |
| Server.ServerThread.PutLsa | src/main/java/socs/network/node/ServerThread.java:87 | the LSA is filed under its originator, and no other entry changes |
| Server.ServerThread.Send | src/main/java/socs/network/node/ServerThread.java:156-157 | one packet written to the connection is appended to the outbox |
| Server.ServerThread.AddIfNew | src/main/java/socs/network/node/ServerThread.java:113-145 | the ports become `AddNeighbour` of the old ones, and the database is unchanged |
| Server.ServerThread.PromoteAt | src/main/java/socs/network/node/ServerThread.java:169-175 | the matching port goes TWO_WAY, the own LSA gains its description, and that LSA is flooded when updateLSA returns |
| Server.ServerThread.PromoteNeighbour | src/main/java/socs/network/node/ServerThread.java:163-177 | the loop over the ports on a HELLO reply: the ports become `Promote` of the old ones; the database and the outbox end as the one matching port's updateLSA and flood leave them |
| Server.ServerThread.ReceiveHello | src/main/java/socs/network/node/ServerThread.java:107-177 | the HELLO branch leaves exactly the ports, database and sent packets of `HelloOutcome` |
| Server.ServerThread.AcceptOne | src/main/java/socs/network/node/ServerThread.java:185-193 | one received LSA: the database becomes `Accept` of the old one, and the LSA is flooded exactly when it is newer |
| Server.ServerThread.ReceiveLinkStateUpdate | src/main/java/socs/network/node/ServerThread.java:181-194 | the link-state update branch leaves exactly the database and sent packets of `LinkStateUpdateOutcome`, over the unchanged ports |
| Server.ServerThread.ReceiveTeardown | src/main/java/socs/network/node/ServerThread.java:198-240 | the teardown branch leaves exactly the ports, database and sent packets of `TeardownOutcome`; it reports a removal exactly when a port led to the sender |
| Server.ServerThread.DisconnectPort | src/main/java/socs/network/node/ServerThread.java:232-238 | the first port of the sender leaves the table, updateLSA drops the neighbour, and the new own LSA is flooded over the remaining ports |
| Server.ServerThread.Run | src/main/java/socs/network/node/ServerThread.java:94-253 | one handled packet leaves exactly the ports, database and sent packets of `Handle`; any other packet type changes nothing |

## Left out

- Sockets and streams. Writing a packet appends it to `Router.outbox`. The
  packet read in `run()` and the reply to a HELLO response are parameters
  of `Run`. An `IOException` partway through a flood is not modelled.
- Java serialisation. A received LSA is stored as a new object holding
  the sent value (`NewLsa`).
- Threads. Each handler, and each shell command, runs as one atomic
  sequential step. Unsynchronised sharing of the database and ports between
  handler threads is not modelled.
- The printing in `run()`'s `catch` block. An exception is modelled as the
  handler stopping where it is thrown.
- Logging to `System.out`, the `toString` methods, and the string that
  `getShortestPath` builds. The path is a sequence of (router, hop weight)
  pairs.
- `processDetect`, which only prints the path. The empty stubs
  `processDisconnect`, `processConnect`, `processNeighbors` and
  `processQuit`, which have no behaviour. The terminal loop and `Main`.
- Reading the configuration in the `Router` constructor. The simulated
  IP and port are parameters. The constructor (Router.java:26) also
  builds a local `Server` and never starts it: `Server` is a `Thread`
  whose constructor (Server.java:13-16) only stores the router and the
  port, and the local is not used again. As written, therefore, no
  `ServerThread` is ever created and the handlers in `Server` are not
  reached. The model describes the handlers as a started server would
  run them.
- `Client`, `ClientThread` and `Server`. They are socket plumbing, or
  repeat the HELLO logic modelled here.
- Links and router descriptions are values, not shared objects. Setting
  `router2.status` replaces the port's link value. No router-2
  description is shared between ports, so no other port sees the change.
- `GetMinimum` picks any closest router. The source's choice depends on
  `HashSet` iteration order, which the model does not fix.
- Database.LinkStateDatabase.GetShortestPath: requires `WellFormed` of the
  snapshot. The router's own entry must exist. Every link of every
  stored router must lead to a router with an entry. This is stronger
  than the source needs: the source reads only the links of routers it
  extracts, the ones reachable from the source router, and throws on
  `distance.get` only when such a router links to an unknown one. The
  database is then excluded even where the source answers normally,
  for example after a teardown from B: mode 1 of updateLSA deletes B's
  entry, and a router D that was reachable only through B still lists
  B, which leaves D unreachable with a link to a router without an
  entry. Weights must be in 0..32767 and there must be fewer than 65536
  routers, so that no distance sum overflows a Java `int`. The source's
  behaviour outside these bounds is not modelled.
- ShortestPath.FindShortestPath: bounds the loop by `|g| + |SelfLinked(g)|`
  iterations, not by the number of routers. A real link of a router to
  itself re-opens that router once.
- Node.Router.ProcessAttach: models the duplicate check with empty slots
  passed over, not the check as written. See Findings.

## Findings

| source | as written | input that shows it | evidently intended | confidence | as-written member | corrected member |
|---|---|---|---|---|---|---|
| src/main/java/socs/network/node/Router.java:72 | the duplicate check reads `ports[j].router2` for all four slots without a null check | any attach to a router with a free slot, for example the first attach of a fresh router: slot 0 is null and the check throws a NullPointerException | empty slots do not match, and the link goes into the lowest free slot | not executed | PortTable.AttachAsWritten | PortTable.Attach |

`AttachAsWrittenNeverAttaches` proves that the check as written never lets
an attach succeed. Whenever a slot is free, the scan reaches that null
slot before it could finish (`ScanPassesOnlyFullTables`). `FirstAttach`
shows the concrete case: a fresh router throws as written, but with the
corrected check the link is attached to slot 0. `AttachOutcomes` and
`AttachFillsLowestFree` prove the intended behaviour of the corrected
`Attach`, and `Router.ProcessAttach` is proved to compute it.
