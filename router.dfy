/** The router: its own description, its link-state database, its port
    table and the packets it has sent. */
module Node {
  import opened JavaInt
  import opened Message
  import opened Wrappers
  import opened LsaStore
  import opened PortTable
  import opened Database

  class Router {
    const rd: RouterDescription
    const lsd: LinkStateDatabase
    /** The occupied ports, lowest slot first. */
    var ports: seq<Link>
    /** Every packet sent so far, in order. */
    var outbox: seq<SospfPacket>

    /** At most four ports, to distinct neighbours; the database is keyed
        and belongs to this router. */
    ghost predicate Valid()
      reads this, lsd, lsd.store.Values
    {
      TableOk(ports) && lsd.Valid() && lsd.rd == rd
    }

    /** The router named by its configuration: its simulated IP and the
        port its server listens on. The process IP and the status are never
        set, so they are the empty string and null. */
    constructor (simulatedIP: string, processPort: Int16)
      ensures Valid()
      ensures rd == RouterDescription("", simulatedIP, processPort, None)
      ensures ports == [] && outbox == []
      ensures lsd.View() == map[simulatedIP := SelfEntry(simulatedIP)]
      ensures fresh(lsd) && fresh(lsd.store.Values)
    {
      rd := RouterDescription("", simulatedIP, processPort, None);
      lsd := new LinkStateDatabase(RouterDescription("", simulatedIP, processPort, None));
      ports := [];
      outbox := [];
    }

    /** Attaches a link to the router with simulated IP `simulatedIP`,
        reached at processIP:processPort. The weight argument is accepted
        and dropped, as in the source. */
    method ProcessAttach(processIP: string, processPort: Int16, simulatedIP: string, weight: Int16)
      returns (outcome: AttachOutcome)
      requires Valid()
      modifies this
      ensures Valid()
      ensures (outcome, ports) == Attach(rd, old(ports), processIP, processPort, simulatedIP)
      ensures outbox == old(outbox)
    {
      if rd.simulatedIPAddress == simulatedIP {
        return SelfLink;
      }
      // Occupied slots only: see the finding on the duplicate check.
      for j := 0 to PORT_COUNT
        invariant forall i :: 0 <= i < j && i < |ports| ==> !Neighbours(ports, i, simulatedIP)
      {
        if j < |ports| && ports[j].router2.simulatedIPAddress == simulatedIP {
          assert Neighbours(ports, j, simulatedIP);
          return Duplicate;
        }
      }
      assert !HasNeighbour(ports, simulatedIP);
      outcome := PortsFull;
      for i := 0 to PORT_COUNT
        invariant outcome == PortsFull
        invariant forall k: nat :: k < i ==> Slot(ports, k).Some?
        invariant ports == old(ports)
      {
        if Slot(ports, i).None? {
          if i > 0 {
            assert Slot(ports, i - 1).Some?;
          }
          ports := ports + [AttachedLink(rd, processIP, processPort, simulatedIP)];
          outcome := Attached(i);
          break;
        }
      }
      if outcome == PortsFull {
        assert Slot(ports, PORT_COUNT - 1).Some?;
      }
      AttachKeepsTable(rd, old(ports), processIP, processPort, simulatedIP);
    }

    /** The HELLO packets processStart prepares, one per port whose
        neighbour has no status yet; none is sent and nothing changes. */
    method ProcessStart() returns (prepared: seq<SospfPacket>)
      ensures |prepared| == |Unstarted(ports)|
      ensures |prepared| <= |ports|
      ensures prepared == [] <==> forall i :: 0 <= i < |ports| ==> ports[i].router2.status.Some?
      ensures forall p :: p in prepared ==>
                p.sospfType == HELLO && p.neighborID == rd.simulatedIPAddress &&
                p.srcProcessIP == rd.processIPAddress && p.srcProcessPort == rd.processPortNumber
    {
      prepared := [];
      for i := 0 to |ports|
        invariant |prepared| == |Unstarted(ports[..i])|
        invariant |prepared| <= i
        invariant prepared == [] <==> forall k :: 0 <= k < i ==> ports[k].router2.status.Some?
        invariant forall p :: p in prepared ==>
                    p.sospfType == HELLO && p.neighborID == rd.simulatedIPAddress &&
                    p.srcProcessIP == rd.processIPAddress && p.srcProcessPort == rd.processPortNumber
      {
        assert ports[..i + 1][..i] == ports[..i];
        if ports[i].router2.status.None? {
          var packet := SospfPacket("", 0, 0, "", "", 0, "", []);
          packet := packet.(sospfType := HELLO, neighborID := rd.simulatedIPAddress,
                            srcProcessIP := rd.processIPAddress, srcProcessPort := rd.processPortNumber);
          prepared := prepared + [packet];
        }
      }
      assert ports[..|ports|] == ports;
    }
  }
}
