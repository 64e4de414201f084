/** The link-state database: the router's map from originator to the LSA
    objects it holds, and the shortest-path query over it. */
module Database {
  import opened JavaInt
  import opened Message
  import opened Wrappers
  import opened Topology
  import opened ShortestPath
  import opened LsaStore
  import opened PortTable

  class LinkStateDatabase {
    /** Originator simulated IP -> its LSA. */
    var store: map<string, LSA>
    /** The owning router. */
    const rd: RouterDescription

    /** Every LSA is filed under its own originator; so no LSA object is
        filed twice, and an update in place touches one entry. */
    ghost predicate Valid()
      reads this, store.Values
    {
      forall k :: k in store ==> store[k].linkStateID == k
    }

    /** The contents of the store as values. */
    function View(): (v: Store)
      reads this, store.Values
      ensures v.Keys == store.Keys
      ensures Valid() ==> Keyed(v)
    {
      map k | k in store :: store[k].Value()
    }

    /** The snapshot the shortest-path search reads: each originator's links. */
    function Snapshot(): (g: Graph)
      reads this, store.Values
      ensures g.Keys == store.Keys
      ensures forall k :: k in g ==> g[k] == View()[k].links
    {
      map k | k in store :: store[k].links
    }

    /** A new database holds exactly one entry, the router's own. */
    constructor (routerDescription: RouterDescription)
      ensures rd == routerDescription
      ensures Valid()
      ensures View() == map[routerDescription.simulatedIPAddress := SelfEntry(routerDescription.simulatedIPAddress)]
      ensures fresh(store.Values)
    {
      rd := routerDescription;
      new;
      var l := InitLinkStateDatabase();
      store := map[l.linkStateID := l];
    }

    /** The router's first LSA: the lowest sequence number and one
        description of itself with the sentinel port and weight 0. */
    method InitLinkStateDatabase() returns (lsa: LSA)
      ensures fresh(lsa)
      ensures lsa.Value() == SelfEntry(rd.simulatedIPAddress)
    {
      lsa := new LSA();
      lsa.linkStateID := rd.simulatedIPAddress;
      lsa.lsaSeqNumber := INT_MIN;
      var ld := LinkDescription(rd.simulatedIPAddress, SELF_PORT, 0);
      lsa.links := lsa.links + [ld];
    }

    /** The path reported from this router to `destinationIP`: each router
        on it with the weight of the hop that reaches it. */
    method GetShortestPath(destinationIP: string) returns (path: seq<Hop>)
      requires WellFormed(Snapshot(), rd.simulatedIPAddress)
      ensures |path| > 0 && path[0].weight == 0 && path[|path| - 1].address == destinationIP
      ensures IsWeightedPath(Snapshot(), path)
      ensures Reachable(Snapshot(), rd.simulatedIPAddress, destinationIP) <==>
                IsRoute(Snapshot(), rd.simulatedIPAddress, destinationIP, path)
      ensures !Reachable(Snapshot(), rd.simulatedIPAddress, destinationIP) ==> path == [Hop(destinationIP, 0)]
      ensures forall p :: IsRoute(Snapshot(), rd.simulatedIPAddress, destinationIP, p) ==> Weight(path) <= Weight(p)
    {
      var g := Snapshot();
      ghost var iterations;
      path, iterations := FindShortestPath(g, rd.simulatedIPAddress, destinationIP);
    }
  }
}
