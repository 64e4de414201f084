/** A router's port table: the links to its neighbours, at most four, and
    every edit the router makes to it (attach, a HELLO from a new
    neighbour, the TWO_WAY promotion, removal on teardown). */
module PortTable {
  import opened JavaInt
  import opened Message
  import opened Wrappers

  /** Every router has four ports. */
  const PORT_COUNT: nat := 4

  datatype RouterStatus = INIT | TWO_WAY

  /** A router as the other end of a link sees it; a status of None is the
      source's null (attached, no HELLO exchanged yet). */
  datatype RouterDescription = RouterDescription(
    processIPAddress: string,
    simulatedIPAddress: string,
    processPortNumber: Int16,
    status: Option<RouterStatus>)

  /** A link from this router (`router1`) to a neighbour (`router2`). */
  datatype Link = Link(router1: RouterDescription, router2: RouterDescription, weight: Int32)

  /** The table as slots 0..3: the links fill the lowest slots, the rest are null. */
  function Slot(ports: seq<Link>, j: nat): Option<Link> {
    if j < |ports| then Some(ports[j]) else None
  }

  predicate Neighbours(ports: seq<Link>, i: int, id: string) {
    0 <= i < |ports| && ports[i].router2.simulatedIPAddress == id
  }

  predicate HasNeighbour(ports: seq<Link>, id: string) {
    exists i :: 0 <= i < |ports| && Neighbours(ports, i, id)
  }

  /** No two ports lead to the same simulated IP. */
  predicate DistinctNeighbours(ports: seq<Link>) {
    forall i, j :: 0 <= i < j < |ports| ==>
      ports[i].router2.simulatedIPAddress != ports[j].router2.simulatedIPAddress
  }

  /** The table invariant the router keeps. */
  predicate TableOk(ports: seq<Link>) {
    |ports| <= PORT_COUNT && DistinctNeighbours(ports)
  }

  // ---------------------------------------------------------------------
  // processAttach.

  datatype AttachOutcome = Attached(slot: nat) | SelfLink | Duplicate | PortsFull | NullPointer

  /** The link processAttach creates: the two-argument Link constructor
      drops the weight, so it is 0, and the remote status is null. */
  function AttachedLink(self: RouterDescription, processIP: string, processPort: Int16, simulatedIP: string): Link {
    Link(self, RouterDescription(processIP, simulatedIP, processPort, None), 0)
  }

  /** processAttach with empty slots passed over by the duplicate check:
      attaching to oneself or to a neighbour already attached is refused,
      otherwise the link takes the lowest free slot if there is one. */
  function Attach(self: RouterDescription, ports: seq<Link>, processIP: string, processPort: Int16, simulatedIP: string)
    : (AttachOutcome, seq<Link>)
  {
    if self.simulatedIPAddress == simulatedIP then (SelfLink, ports)
    else if HasNeighbour(ports, simulatedIP) then (Duplicate, ports)
    else if |ports| < PORT_COUNT then (Attached(|ports|), ports + [AttachedLink(self, processIP, processPort, simulatedIP)])
    else (PortsFull, ports)
  }

  /** The outcome of an attach, case by case; a refused attach changes nothing. */
  lemma AttachOutcomes(self: RouterDescription, ports: seq<Link>, processIP: string, processPort: Int16, simulatedIP: string)
    ensures var (o, _) := Attach(self, ports, processIP, processPort, simulatedIP);
            (o == SelfLink <==> self.simulatedIPAddress == simulatedIP) &&
            (o == Duplicate <==> self.simulatedIPAddress != simulatedIP && HasNeighbour(ports, simulatedIP)) &&
            (o.Attached? <==> self.simulatedIPAddress != simulatedIP && !HasNeighbour(ports, simulatedIP) && |ports| < PORT_COUNT) &&
            o != NullPointer
    ensures !Attach(self, ports, processIP, processPort, simulatedIP).0.Attached? ==>
              Attach(self, ports, processIP, processPort, simulatedIP).1 == ports
  {
  }

  /** A successful attach fills the lowest null slot with the new link and
      leaves every other slot as it was. */
  lemma AttachFillsLowestFree(self: RouterDescription, ports: seq<Link>, processIP: string, processPort: Int16, simulatedIP: string)
    requires Attach(self, ports, processIP, processPort, simulatedIP).0.Attached?
    ensures var (o, after) := Attach(self, ports, processIP, processPort, simulatedIP);
            Slot(ports, o.slot) == None &&
            (forall j: nat :: j < o.slot ==> Slot(ports, j).Some?) &&
            Slot(after, o.slot) == Some(AttachedLink(self, processIP, processPort, simulatedIP)) &&
            (forall j: nat :: j != o.slot ==> Slot(after, j) == Slot(ports, j))
  {
  }

  lemma AttachKeepsTable(self: RouterDescription, ports: seq<Link>, processIP: string, processPort: Int16, simulatedIP: string)
    requires TableOk(ports)
    ensures TableOk(Attach(self, ports, processIP, processPort, simulatedIP).1)
  {
    NewNeighbourKeepsDistinct(ports, AttachedLink(self, processIP, processPort, simulatedIP));
  }

  /** Appending a link to an address no port leads to keeps the neighbours distinct. */
  lemma NewNeighbourKeepsDistinct(ports: seq<Link>, l: Link)
    requires DistinctNeighbours(ports)
    ensures !HasNeighbour(ports, l.router2.simulatedIPAddress) ==> DistinctNeighbours(ports + [l])
  {
    if !HasNeighbour(ports, l.router2.simulatedIPAddress) {
      var r := ports + [l];
      forall i, j | 0 <= i < j < |r|
        ensures r[i].router2.simulatedIPAddress != r[j].router2.simulatedIPAddress
      {
        if j == |ports| {
          assert !Neighbours(ports, i, l.router2.simulatedIPAddress);
        }
      }
    }
  }

  /** The duplicate check as Router.processAttach writes it: slot 0 to 3,
      dereferencing each slot without a null check. None: the scan ran
      through without finding the address. */
  function DuplicateScanAsWritten(ports: seq<Link>, simulatedIP: string, j: nat): Option<AttachOutcome>
    decreases PORT_COUNT - j
  {
    if j >= PORT_COUNT then None
    else match Slot(ports, j)
      case None => Some(NullPointer)
      case Some(l) => if l.router2.simulatedIPAddress == simulatedIP then Some(Duplicate)
                      else DuplicateScanAsWritten(ports, simulatedIP, j + 1)
  }

  function AttachAsWritten(self: RouterDescription, ports: seq<Link>, processIP: string, processPort: Int16, simulatedIP: string)
    : (AttachOutcome, seq<Link>)
  {
    if self.simulatedIPAddress == simulatedIP then (SelfLink, ports)
    else match DuplicateScanAsWritten(ports, simulatedIP, 0)
      case Some(stop) => (stop, ports)
      case None =>
        if |ports| < PORT_COUNT then (Attached(|ports|), ports + [AttachedLink(self, processIP, processPort, simulatedIP)])
        else (PortsFull, ports)
  }

  /** The scan runs through only over four occupied slots. */
  lemma {:induction false} ScanPassesOnlyFullTables(ports: seq<Link>, simulatedIP: string, j: nat)
    requires j < PORT_COUNT && DuplicateScanAsWritten(ports, simulatedIP, j).None?
    ensures PORT_COUNT <= |ports|
    decreases PORT_COUNT - j
  {
    assert Slot(ports, j).Some?;
    if j + 1 < PORT_COUNT {
      ScanPassesOnlyFullTables(ports, simulatedIP, j + 1);
    }
  }

  /** As written, no attach ever succeeds: whenever a slot is free the
      duplicate check reaches it first and throws. */
  lemma AttachAsWrittenNeverAttaches(self: RouterDescription, ports: seq<Link>, processIP: string, processPort: Int16, simulatedIP: string)
    requires |ports| <= PORT_COUNT
    ensures !AttachAsWritten(self, ports, processIP, processPort, simulatedIP).0.Attached?
  {
    if self.simulatedIPAddress != simulatedIP && DuplicateScanAsWritten(ports, simulatedIP, 0).None? {
      ScanPassesOnlyFullTables(ports, simulatedIP, 0);
    }
  }

  /** The first attach of a fresh router: as written it throws, while the
      intended check attaches to slot 0. */
  lemma FirstAttach(self: RouterDescription, processIP: string, processPort: Int16, simulatedIP: string)
    requires self.simulatedIPAddress != simulatedIP
    ensures AttachAsWritten(self, [], processIP, processPort, simulatedIP).0 == NullPointer
    ensures Attach(self, [], processIP, processPort, simulatedIP) ==
            (Attached(0), [AttachedLink(self, processIP, processPort, simulatedIP)])
  {
    assert [] + [AttachedLink(self, processIP, processPort, simulatedIP)] == [AttachedLink(self, processIP, processPort, simulatedIP)];
  }

  // ---------------------------------------------------------------------
  // processStart.

  /** The ports whose neighbour has no status yet, lowest first: the ones
      processStart says HELLO to. */
  function Unstarted(ports: seq<Link>): seq<nat>
    decreases |ports|
  {
    if ports == [] then []
    else Unstarted(ports[..|ports| - 1]) +
         (if ports[|ports| - 1].router2.status.None? then [|ports| - 1] else [])
  }

  /** Unstarted lists exactly the ports without a status, each once, in
      increasing order. */
  lemma {:induction false} UnstartedMembers(ports: seq<Link>)
    ensures forall j: nat :: j in Unstarted(ports) <==> j < |ports| && ports[j].router2.status.None?
    ensures forall a, b :: 0 <= a < b < |Unstarted(ports)| ==> Unstarted(ports)[a] < Unstarted(ports)[b]
    ensures forall a :: 0 <= a < |Unstarted(ports)| ==> Unstarted(ports)[a] < |ports|
    decreases |ports|
  {
    if ports != [] {
      var front := ports[..|ports| - 1];
      UnstartedMembers(front);
      forall j: nat | j < |front|
        ensures front[j] == ports[j]
      {
      }
    }
  }

  // ---------------------------------------------------------------------
  // HELLO from a neighbour.

  /** The link a HELLO from a new neighbour creates, in state INIT, with
      the weight the packet carries. */
  function HelloLink(self: RouterDescription, message: SospfPacket): Link {
    Link(self, RouterDescription(message.srcProcessIP, message.neighborID, message.srcProcessPort, Some(INIT)), message.srcWeight)
  }

  function AddNeighbour(self: RouterDescription, ports: seq<Link>, message: SospfPacket): seq<Link> {
    if !HasNeighbour(ports, message.neighborID) && |ports| < PORT_COUNT then ports + [HelloLink(self, message)]
    else ports
  }

  /** A link is added exactly when the sender is no neighbour yet and a
      port is free, and then only that one link, at the end. */
  lemma AddNeighbourRule(self: RouterDescription, ports: seq<Link>, message: SospfPacket)
    ensures AddNeighbour(self, ports, message) != ports <==>
              !HasNeighbour(ports, message.neighborID) && |ports| < PORT_COUNT
    ensures AddNeighbour(self, ports, message) == ports ||
              AddNeighbour(self, ports, message) == ports + [HelloLink(self, message)]
    ensures HasNeighbour(AddNeighbour(self, ports, message), message.neighborID) || |ports| >= PORT_COUNT
  {
    if !HasNeighbour(ports, message.neighborID) && |ports| < PORT_COUNT {
      assert Neighbours(AddNeighbour(self, ports, message), |ports|, message.neighborID);
    }
  }

  lemma AddNeighbourKeepsTable(self: RouterDescription, ports: seq<Link>, message: SospfPacket)
    requires TableOk(ports)
    ensures TableOk(AddNeighbour(self, ports, message))
  {
    NewNeighbourKeepsDistinct(ports, HelloLink(self, message));
  }

  // ---------------------------------------------------------------------
  // The HELLO reply: promotion to TWO_WAY.

  function TwoWay(l: Link): Link {
    l.(router2 := l.router2.(status := Some(TWO_WAY)))
  }

  /** Every port leading to `id` set to TWO_WAY. */
  function Promote(ports: seq<Link>, id: string): seq<Link>
    decreases |ports|
  {
    if |ports| == 0 then []
    else [if ports[0].router2.simulatedIPAddress == id then TwoWay(ports[0]) else ports[0]] + Promote(ports[1..], id)
  }

  /** Exactly the ports leading to `id` become TWO_WAY; every other port,
      and every other field, stays as it was. */
  lemma {:induction false} PromoteEffect(ports: seq<Link>, id: string)
    ensures |Promote(ports, id)| == |ports|
    ensures forall i :: 0 <= i < |ports| && ports[i].router2.simulatedIPAddress == id ==>
              Promote(ports, id)[i] == TwoWay(ports[i])
    ensures forall i :: 0 <= i < |ports| && ports[i].router2.simulatedIPAddress != id ==>
              Promote(ports, id)[i] == ports[i]
    decreases |ports|
  {
    if |ports| > 0 {
      PromoteEffect(ports[1..], id);
      var r := Promote(ports, id);
      forall i | 1 <= i < |ports|
        ensures r[i] == Promote(ports[1..], id)[i - 1] && ports[i] == ports[1..][i - 1]
      {
      }
    }
  }

  lemma PromoteKeepsTable(ports: seq<Link>, id: string)
    requires TableOk(ports)
    ensures |Promote(ports, id)| == |ports| && TableOk(Promote(ports, id))
    ensures forall i :: 0 <= i < |ports| ==>
              Promote(ports, id)[i].router2.simulatedIPAddress == ports[i].router2.simulatedIPAddress
  {
    PromoteEffect(ports, id);
  }

  /** Promoting to TWO_WAY twice is promoting once. */
  lemma PromoteIdempotent(ports: seq<Link>, id: string)
    ensures Promote(Promote(ports, id), id) == Promote(ports, id)
  {
    PromoteEffect(ports, id);
    PromoteEffect(Promote(ports, id), id);
  }

  /** Without a port to `id` promotion changes nothing. */
  lemma PromoteNone(ports: seq<Link>, id: string)
    requires !HasNeighbour(ports, id)
    ensures Promote(ports, id) == ports
  {
    PromoteEffect(ports, id);
    forall i | 0 <= i < |ports|
      ensures Promote(ports, id)[i] == ports[i]
    {
      assert !Neighbours(ports, i, id);
    }
  }

  /** With distinct neighbours promotion changes the one port of `id`. */
  lemma PromoteOne(ports: seq<Link>, id: string, i: int)
    requires DistinctNeighbours(ports) && Neighbours(ports, i, id)
    ensures Promote(ports, id) == ports[i := TwoWay(ports[i])]
  {
    PromoteEffect(ports, id);
    forall k | 0 <= k < |ports|
      ensures Promote(ports, id)[k] == ports[i := TwoWay(ports[i])][k]
    {
    }
  }

  /** A port going TWO_WAY keeps the table. */
  lemma TwoWayKeepsTable(ports: seq<Link>, i: int)
    requires TableOk(ports) && 0 <= i < |ports|
    ensures TableOk(ports[i := TwoWay(ports[i])])
  {
    var r := ports[i := TwoWay(ports[i])];
    assert forall k :: 0 <= k < |r| ==> r[k].router2.simulatedIPAddress == ports[k].router2.simulatedIPAddress;
  }

  // ---------------------------------------------------------------------
  // Teardown.

  /** `i` is the first port leading to `id`. */
  predicate IsFirstPort(ports: seq<Link>, id: string, i: int) {
    Neighbours(ports, i, id) && forall j :: 0 <= j < i ==> !Neighbours(ports, j, id)
  }

  function RemovePort(ports: seq<Link>, i: nat): seq<Link>
    requires i < |ports|
  {
    ports[..i] + ports[i + 1..]
  }

  /** Removing the first port of `id` keeps the others in order; with
      distinct neighbours no port of `id` is left. */
  lemma RemoveFirstPort(ports: seq<Link>, id: string, i: nat)
    requires i < |ports| && IsFirstPort(ports, id, i)
    ensures |RemovePort(ports, i)| == |ports| - 1
    ensures forall j :: 0 <= j < i ==> RemovePort(ports, i)[j] == ports[j]
    ensures forall j :: i <= j < |ports| - 1 ==> RemovePort(ports, i)[j] == ports[j + 1]
    ensures TableOk(ports) ==> TableOk(RemovePort(ports, i)) && !HasNeighbour(RemovePort(ports, i), id)
  {
    var r := RemovePort(ports, i);
    if TableOk(ports) {
      forall k | 0 <= k < |r|
        ensures !Neighbours(r, k, id)
      {
        if k >= i {
          assert r[k] == ports[k + 1];
        }
      }
    }
  }
}
