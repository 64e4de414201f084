/** The handler of one incoming connection: a HELLO with its reply, a
    link-state update, or a teardown, and the updateLSA and sendLSP
    operations they use. Sending is recording the packet in the router's
    outbox. */
module Server {
  import opened JavaInt
  import opened Message
  import opened Wrappers
  import opened LsaStore
  import opened PortTable
  import opened Database
  import opened Node

  // ---------------------------------------------------------------------
  // Packets.

  /** A packet with every field at its Java default (null strings are the
      empty string). */
  const EMPTY_PACKET: SospfPacket := SospfPacket("", 0, 0, "", "", 0, "", [])

  /** The link-state update sendLSP sends over one port. */
  function LspPacket(rd: RouterDescription, link: Link, lsa: LsaValue): SospfPacket {
    EMPTY_PACKET.(srcProcessIP := rd.processIPAddress, srcProcessPort := rd.processPortNumber,
                  srcIP := rd.simulatedIPAddress, dstIP := link.router2.simulatedIPAddress,
                  sospfType := LINK_STATE_UPDATE, neighborID := rd.simulatedIPAddress, lsaArray := [lsa])
  }

  /** One update per port, in port order. */
  function Flood(rd: RouterDescription, ports: seq<Link>, lsa: LsaValue): seq<SospfPacket>
    decreases |ports|
  {
    if |ports| == 0 then [] else Flood(rd, ports[..|ports| - 1], lsa) + [LspPacket(rd, ports[|ports| - 1], lsa)]
  }

  function FloodAll(rd: RouterDescription, ports: seq<Link>, lsas: seq<LsaValue>): seq<SospfPacket>
    decreases |lsas|
  {
    if |lsas| == 0 then [] else FloodAll(rd, ports, lsas[..|lsas| - 1]) + Flood(rd, ports, lsas[|lsas| - 1])
  }

  /** Flooding sends the LSA to every neighbour once, in port order, as a
      link-state update from this router carrying that LSA alone. */
  lemma {:induction false} FloodReachesEveryPort(rd: RouterDescription, ports: seq<Link>, lsa: LsaValue)
    ensures |Flood(rd, ports, lsa)| == |ports|
    ensures forall i :: 0 <= i < |ports| ==>
              Flood(rd, ports, lsa)[i].dstIP == ports[i].router2.simulatedIPAddress &&
              Flood(rd, ports, lsa)[i].sospfType == LINK_STATE_UPDATE &&
              Flood(rd, ports, lsa)[i].srcIP == rd.simulatedIPAddress &&
              Flood(rd, ports, lsa)[i].lsaArray == [lsa]
    decreases |ports|
  {
    if |ports| > 0 {
      FloodReachesEveryPort(rd, ports[..|ports| - 1], lsa);
      assert forall i :: 0 <= i < |ports| - 1 ==> ports[..|ports| - 1][i] == ports[i];
    }
  }

  /** The answer to a HELLO. */
  function HelloResponse(rd: RouterDescription): SospfPacket {
    EMPTY_PACKET.(sospfType := HELLO, neighborID := rd.simulatedIPAddress,
                  srcProcessIP := rd.processIPAddress, srcProcessPort := rd.processPortNumber)
  }

  /** The confirmation of a teardown. */
  function TeardownConfirmation(rd: RouterDescription, message: SospfPacket): SospfPacket {
    EMPTY_PACKET.(sospfType := TEARDOWN, srcIP := rd.simulatedIPAddress, srcProcessPort := rd.processPortNumber,
                  dstIP := message.srcIP, srcProcessIP := rd.processIPAddress)
  }

  // ---------------------------------------------------------------------
  // updateLSA.

  /** The description updateLSA adds of a neighbour: its simulated IP, its
      process port and the link's weight. */
  function Describe(link: Link): LinkDescription {
    LinkDescription(link.router2.simulatedIPAddress, link.router2.processPortNumber, link.weight)
  }

  /** updateLSA on the store's values: mode 0 adds the link, any other
      flag drops the neighbour. */
  function LsaUpdate(store: Store, self: string, link: Link, actionFlag: int): Update {
    if actionFlag == 0 then AddLinkUpdate(store, self, Describe(link))
    else DropNeighbourUpdate(store, self, link.router2.simulatedIPAddress)
  }

  /** The removal loop of updateLSA on values: the descriptions of `id`
      go, and the sequence number goes up once per removed description. */
  function StripEntry(lsa: LsaValue, id: string): LsaValue {
    var kept := StripLinks(lsa.links, id);
    lsa.(lsaSeqNumber := Wrap32(lsa.lsaSeqNumber + (|lsa.links| - |kept|)), links := kept)
  }

  /** Stripping one more description of a prefix. */
  lemma StripStep(links: seq<LinkDescription>, p: nat, id: string)
    requires p < |links|
    ensures StripLinks(links[..p + 1], id) ==
              StripLinks(links[..p], id) + (if links[p].linkID == id then [] else [links[p]])
  {
    StripAppend(links[..p], [links[p]], id);
    assert links[..p + 1] == links[..p] + [links[p]];
    assert StripLinks([links[p]], id) == if links[p].linkID == id then [] else [links[p]];
  }

  /** One turn of the removal loop, on values: `current` is the survivors
      of the first `p` descriptions followed by the unvisited rest, and the
      cursor `i` sits on the first unvisited one. Removing it when it
      leads to `id`, or stepping over it otherwise, gives the same shape
      one description further on. */
  lemma StripLoopStep(links: seq<LinkDescription>, p: nat, id: string, current: seq<LinkDescription>, i: nat)
    requires p < |links|
    requires current == StripLinks(links[..p], id) + links[p..]
    requires i == |StripLinks(links[..p], id)|
    ensures i < |current| && current[i] == links[p]
    ensures links[p].linkID == id ==>
              current[..i] + current[i + 1..] == StripLinks(links[..p + 1], id) + links[p + 1..] &&
              |StripLinks(links[..p + 1], id)| == i
    ensures links[p].linkID != id ==>
              current == StripLinks(links[..p + 1], id) + links[p + 1..] &&
              |StripLinks(links[..p + 1], id)| == i + 1
  {
    var kept := StripLinks(links[..p], id);
    assert links[p..] == [links[p]] + links[p + 1..];
    StripStep(links, p, id);
    if links[p].linkID == id {
      assert current[..i] == kept;
      assert current[i + 1..] == links[p + 1..];
    } else {
      assert current == (kept + [links[p]]) + links[p + 1..];
    }
  }

  /** The removal loop of updateLSA: every description of `id` leaves the
      LSA, and each removal raises the sequence number once. */
  method StripDescriptions(lsa: LSA, id: string)
    modifies lsa
    ensures lsa.links == StripLinks(old(lsa.links), id)
    ensures lsa.lsaSeqNumber == Wrap32(old(lsa.lsaSeqNumber) + (|old(lsa.links)| - |lsa.links|))
    ensures lsa.linkStateID == old(lsa.linkStateID)
  {
    ghost var links0 := lsa.links;
    ghost var seq0 := lsa.lsaSeqNumber;
    ghost var p: nat := 0;
    var i := 0;
    while i < |lsa.links|
      invariant p <= |links0|
      invariant lsa.links == StripLinks(links0[..p], id) + links0[p..]
      invariant i == |StripLinks(links0[..p], id)|
      invariant lsa.lsaSeqNumber == Wrap32(seq0 + (p - i))
      invariant lsa.linkStateID == old(lsa.linkStateID)
      decreases |links0| - p
    {
      i := StripTurn(lsa, id, i, links0, p, seq0);
      p := p + 1;
    }
    assert p == |links0| && links0[..p] == links0 && links0[p..] == [];
    assert lsa.links == StripLinks(links0, id);
  }

  /** One turn of the removal loop: the description under the cursor is
      removed, with one more increment, when it leads to `id`, and stepped
      over otherwise. `links0`, `p` and `seq0` are the loop's ghost
      bookkeeping: the original list, the descriptions visited and the
      original sequence number. */
  method StripTurn(lsa: LSA, id: string, i: nat, ghost links0: seq<LinkDescription>, ghost p: nat, ghost seq0: int)
    returns (next: nat)
    requires p < |links0|
    requires lsa.links == StripLinks(links0[..p], id) + links0[p..]
    requires i == |StripLinks(links0[..p], id)|
    requires lsa.lsaSeqNumber == Wrap32(seq0 + (p - i))
    modifies lsa
    ensures lsa.links == StripLinks(links0[..p + 1], id) + links0[p + 1..]
    ensures next == |StripLinks(links0[..p + 1], id)|
    ensures lsa.lsaSeqNumber == Wrap32(seq0 + (p + 1 - next))
    ensures lsa.linkStateID == old(lsa.linkStateID)
  {
    StripLoopStep(links0, p, id, lsa.links, i);
    next := i + 1;
    if lsa.links[i].linkID == id {
      lsa.links := lsa.links[..i] + lsa.links[i + 1..];
      Inc32OfWrap(seq0 + (p - i));
      lsa.lsaSeqNumber := Inc32(lsa.lsaSeqNumber);
      next := i;
    }
  }

  // ---------------------------------------------------------------------
  // Port scans.

  /** The HELLO handler's scan: the sender is new when no port leads to it. */
  method IsNewNeighbour(ports: seq<Link>, neighborID: string) returns (addNeighbour: bool)
    ensures addNeighbour <==> !HasNeighbour(ports, neighborID)
  {
    addNeighbour := true;
    for k := 0 to |ports|
      invariant addNeighbour <==> forall j :: 0 <= j < k ==> !Neighbours(ports, j, neighborID)
    {
      if ports[k].router2.simulatedIPAddress == neighborID {
        assert Neighbours(ports, k, neighborID);
        addNeighbour := false;
      }
    }
  }

  /** The teardown's scan: the index of the first port leading to `srcIP`. */
  method FindPort(ports: seq<Link>, srcIP: string) returns (index: Option<nat>)
    ensures index.None? <==> !HasNeighbour(ports, srcIP)
    ensures index.Some? ==> index.value < |ports| && IsFirstPort(ports, srcIP, index.value)
    ensures index == PortIndex(ports, srcIP)
  {
    PortIndexIsFirst(ports, srcIP);
    var i := 0;
    index := None;
    while i < |ports|
      invariant 0 <= i <= |ports|
      invariant forall j :: 0 <= j < i ==> !Neighbours(ports, j, srcIP)
    {
      if srcIP == ports[i].router2.simulatedIPAddress {
        assert Neighbours(ports, i, srcIP);
        return Some(i);
      }
      i := i + 1;
    }
  }

  /** The index of the first port leading to `id`, if any. */
  function PortIndex(ports: seq<Link>, id: string): (r: Option<nat>)
    ensures r.Some? ==> r.value < |ports|
    decreases |ports|
  {
    if |ports| == 0 then None
    else if ports[0].router2.simulatedIPAddress == id then Some(0)
    else match PortIndex(ports[1..], id)
      case None => None
      case Some(j) => Some(j + 1)
  }

  /** PortIndex finds exactly the first port of `id`, and nothing when no
      port leads to `id`. */
  lemma {:induction false} PortIndexIsFirst(ports: seq<Link>, id: string)
    ensures PortIndex(ports, id).None? <==> !HasNeighbour(ports, id)
    ensures PortIndex(ports, id).Some? ==> IsFirstPort(ports, id, PortIndex(ports, id).value)
    decreases |ports|
  {
    if |ports| > 0 && ports[0].router2.simulatedIPAddress != id {
      var rest := ports[1..];
      PortIndexIsFirst(rest, id);
      if HasNeighbour(ports, id) {
        var k :| 0 <= k < |ports| && Neighbours(ports, k, id);
        assert Neighbours(rest, k - 1, id);
      }
      if HasNeighbour(rest, id) {
        var k :| 0 <= k < |rest| && Neighbours(rest, k, id);
        assert Neighbours(ports, k + 1, id);
      }
      match PortIndex(rest, id)
      case None =>
      case Some(j) =>
        forall m | 0 <= m < j + 1
          ensures !Neighbours(ports, m, id)
        {
          if m > 0 {
            assert !Neighbours(rest, m - 1, id);
          }
        }
    } else if |ports| > 0 {
      assert Neighbours(ports, 0, id);
    }
  }

  /** With distinct neighbours, a port leading to `id` is the first one. */
  lemma OnlyPort(ports: seq<Link>, id: string, i: int)
    requires DistinctNeighbours(ports) && Neighbours(ports, i, id)
    ensures IsFirstPort(ports, id, i)
  {
  }

  /** What the HELLO reply does to the store: the own LSA gains a
      description of the promoted neighbour's link. */
  function HelloReplyUpdate(store: Store, self: string, ports: seq<Link>, id: string): Update {
    match PortIndex(ports, id)
      case None => Update(store, None)
      case Some(i) => AddLinkUpdate(store, self, Describe(ports[i]))
  }

  // ---------------------------------------------------------------------
  // Helpers of updateLSA.

  /** updateLSA's mode 0 as its steps: the increment, then the append. */
  lemma AddLinkSteps(view0: Store, self: string, ld: LinkDescription, view1: Store)
    requires self in view0
    requires view1 == view0[self := view0[self].(lsaSeqNumber := Inc32(view0[self].lsaSeqNumber))]
    ensures AddLinkUpdate(view0, self, ld).store == view1[self := view1[self].(links := view1[self].links + [ld])]
    ensures AddLinkUpdate(view0, self, ld).result == Some(view1[self].(links := view1[self].links + [ld]))
  {
  }

  /** updateLSA's mode 1 fails once the removal leaves no own entry. */
  lemma DropFails(view0: Store, self: string, neighbour: string, view1: Store, view2: Store)
    requires self in view0 ==> view1 == view0[self := view0[self].(lsaSeqNumber := Inc32(view0[self].lsaSeqNumber))]
    requires self !in view0 ==> view1 == view0
    requires view2 == view1 - {neighbour}
    requires self !in view2
    ensures DropNeighbourUpdate(view0, self, neighbour) == Update(view2, None)
  {
    assert view2 == view0 - {neighbour};
  }

  /** updateLSA's mode 1 as its steps: the increment, the removal of the
      neighbour's entry, then the removal loop. */
  lemma DropSteps(view0: Store, self: string, neighbour: string, view1: Store, view2: Store, before: LsaValue, own: LsaValue)
    requires self in view0 ==> view1 == view0[self := view0[self].(lsaSeqNumber := Inc32(view0[self].lsaSeqNumber))]
    requires self !in view0 ==> view1 == view0
    requires view2 == view1 - {neighbour}
    requires self in view2 && before == view2[self]
    requires own == StripEntry(before, neighbour)
    ensures DropNeighbourUpdate(view0, self, neighbour) == Update(view2[self := own], Some(own))
  {
    WrapShift(view0[self].lsaSeqNumber + 1, |view0[self].links| - |own.links|);
    assert own == view0[self].(lsaSeqNumber := own.lsaSeqNumber, links := own.links);
    assert view2[self := own] == (view0 - {neighbour})[self := own];
  }

  /** Removing a key leaves no value that was not there. */
  lemma ShrinkValues<V>(store: map<string, V>, k: string)
    ensures (store - {k}).Values <= store.Values
  {
  }

  /** Filing a value again under its own key leaves the store as it is. */
  lemma Refile<V>(store: map<string, V>, k: string)
    requires k in store
    ensures store[k := store[k]] == store
  {
  }

  /** An LSA object filed under `self` is no other entry's object. */
  lemma OthersUntouched(store: map<string, LSA>, self: string, own: LSA)
    requires self in store && own == store[self]
    requires forall k :: k in store ==> store[k].linkStateID == k
    ensures forall k :: k in store && k != self ==> store[k] != own
  {
  }

  // ---------------------------------------------------------------------
  // The handlers on values.

  /** What one handled connection leaves behind: the port table, the
      database's contents, and the packets sent, in order. */
  datatype Outcome = Outcome(ports: seq<Link>, view: Store, sent: seq<SospfPacket>)

  /** A HELLO: the sender is added in state INIT if it is new and a port
      is free; the response goes out; and if the reply is a HELLO too,
      the replying neighbour goes TWO_WAY, the own LSA gains its link and
      is flooded. */
  function HelloOutcome(rd: RouterDescription, ports: seq<Link>, view: Store, message: SospfPacket, reply: SospfPacket): Outcome {
    var added := AddNeighbour(rd, ports, message);
    if reply.sospfType != HELLO then Outcome(added, view, [HelloResponse(rd)])
    else
      var promoted := Promote(added, reply.neighborID);
      var u := HelloReplyUpdate(view, rd.simulatedIPAddress, added, reply.neighborID);
      Outcome(promoted, u.store, [HelloResponse(rd)] + if u.result.Some? then Flood(rd, promoted, u.result.value) else [])
  }

  /** A link-state update: its LSAs are accepted in order, and each
      accepted one is flooded on. */
  function LinkStateUpdateOutcome(rd: RouterDescription, ports: seq<Link>, view: Store, message: SospfPacket): Outcome {
    var (after, flooded) := AcceptAll(view, message.lsaArray);
    Outcome(ports, after, FloodAll(rd, ports, flooded))
  }

  /** A teardown: the confirmation goes out; then the sender's port goes,
      its entry leaves the database, the own LSA drops its links and is
      flooded. Without a port to the sender the handler stops after the
      confirmation. */
  function TeardownOutcome(rd: RouterDescription, ports: seq<Link>, view: Store, message: SospfPacket): Outcome {
    var confirmation := TeardownConfirmation(rd, message);
    match PortIndex(ports, message.srcIP)
      case None => Outcome(ports, view, [confirmation])
      case Some(i) =>
        var remaining := RemovePort(ports, i);
        var u := DropNeighbourUpdate(view, rd.simulatedIPAddress, message.srcIP);
        Outcome(remaining, u.store, [confirmation] + if u.result.Some? then Flood(rd, remaining, u.result.value) else [])
  }

  /** The dispatch on the packet type; any other type is ignored. */
  function Handle(rd: RouterDescription, ports: seq<Link>, view: Store, message: SospfPacket, reply: SospfPacket): Outcome {
    if message.sospfType == HELLO then HelloOutcome(rd, ports, view, message, reply)
    else if message.sospfType == LINK_STATE_UPDATE then LinkStateUpdateOutcome(rd, ports, view, message)
    else if message.sospfType == TEARDOWN then TeardownOutcome(rd, ports, view, message)
    else Outcome(ports, view, [])
  }

  // ---------------------------------------------------------------------
  // Properties of the handlers.

  /** Every handler keeps the port table at most four ports to distinct
      neighbours, and every LSA filed under its own originator. */
  lemma HandleKeepsInvariants(rd: RouterDescription, ports: seq<Link>, view: Store, message: SospfPacket, reply: SospfPacket)
    requires TableOk(ports) && Keyed(view)
    ensures TableOk(Handle(rd, ports, view, message, reply).ports)
    ensures Keyed(Handle(rd, ports, view, message, reply).view)
  {
    if message.sospfType == HELLO {
      HelloKeepsInvariants(rd, ports, view, message, reply);
    } else if message.sospfType == LINK_STATE_UPDATE {
      AcceptAllAdvances(view, message.lsaArray);
    } else if message.sospfType == TEARDOWN {
      TeardownKeepsInvariants(rd, ports, view, message);
    }
  }

  lemma HelloKeepsInvariants(rd: RouterDescription, ports: seq<Link>, view: Store, message: SospfPacket, reply: SospfPacket)
    requires TableOk(ports) && Keyed(view)
    ensures TableOk(HelloOutcome(rd, ports, view, message, reply).ports)
    ensures Keyed(HelloOutcome(rd, ports, view, message, reply).view)
  {
    var added := AddNeighbour(rd, ports, message);
    AddNeighbourKeepsTable(rd, ports, message);
    PromoteKeepsTable(added, reply.neighborID);
    match PortIndex(added, reply.neighborID)
    case None =>
    case Some(i) => AddLinkKeepsKeyed(view, rd.simulatedIPAddress, Describe(added[i]));
  }

  lemma TeardownKeepsInvariants(rd: RouterDescription, ports: seq<Link>, view: Store, message: SospfPacket)
    requires TableOk(ports) && Keyed(view)
    ensures TableOk(TeardownOutcome(rd, ports, view, message).ports)
    ensures Keyed(TeardownOutcome(rd, ports, view, message).view)
  {
    PortIndexIsFirst(ports, message.srcIP);
    match PortIndex(ports, message.srcIP)
    case None =>
    case Some(i) =>
      RemoveFirstPort(ports, message.srcIP, i);
      DropNeighbourKeepsKeyed(view, rd.simulatedIPAddress, message.srcIP);
  }

  /** A link-state update never touches the ports; with at least one port
      it sends nothing exactly when it leaves the database unchanged. */
  lemma LinkStateUpdateFloodsChanges(rd: RouterDescription, ports: seq<Link>, view: Store, message: SospfPacket)
    ensures LinkStateUpdateOutcome(rd, ports, view, message).ports == ports
    ensures |ports| > 0 ==>
              (LinkStateUpdateOutcome(rd, ports, view, message).sent == [] <==>
               LinkStateUpdateOutcome(rd, ports, view, message).view == view)
  {
    FloodedIffChanged(view, message.lsaArray);
    FloodAllLength(rd, ports, AcceptAll(view, message.lsaArray).1);
  }

  /** One packet per port per flooded LSA. */
  lemma {:induction false} FloodAllLength(rd: RouterDescription, ports: seq<Link>, lsas: seq<LsaValue>)
    ensures |FloodAll(rd, ports, lsas)| == |ports| * |lsas|
    decreases |lsas|
  {
    if |lsas| > 0 {
      FloodAllLength(rd, ports, lsas[..|lsas| - 1]);
      FloodReachesEveryPort(rd, ports, lsas[|lsas| - 1]);
      assert |ports| * |lsas| == |ports| * (|lsas| - 1) + |ports|;
    }
  }

  /** After a teardown from a neighbour, with distinct neighbours, no port
      and no database entry leads to it any more, the confirmation went
      first, and every other port is kept in order. */
  lemma TeardownRemovesNeighbour(rd: RouterDescription, ports: seq<Link>, view: Store, message: SospfPacket, i: nat)
    requires TableOk(ports) && Neighbours(ports, i, message.srcIP)
    ensures var o := TeardownOutcome(rd, ports, view, message);
              o.ports == RemovePort(ports, i) && !HasNeighbour(o.ports, message.srcIP) &&
              message.srcIP !in o.view &&
              |o.sent| > 0 && o.sent[0] == TeardownConfirmation(rd, message)
  {
    OnlyPort(ports, message.srcIP, i);
    PortIndexIsFirst(ports, message.srcIP);
    RemoveFirstPort(ports, message.srcIP, i);
    DropNeighbourEffect(view, rd.simulatedIPAddress, message.srcIP);
  }

  /** A teardown from a router that is no neighbour sends the confirmation
      and changes nothing. */
  lemma TeardownFromStranger(rd: RouterDescription, ports: seq<Link>, view: Store, message: SospfPacket)
    requires !HasNeighbour(ports, message.srcIP)
    ensures TeardownOutcome(rd, ports, view, message) == Outcome(ports, view, [TeardownConfirmation(rd, message)])
  {
    PortIndexIsFirst(ports, message.srcIP);
  }

  /** The HELLO exchange from a new neighbour with a free port, replied to
      with a HELLO: the neighbour ends up on the last port in state
      TWO_WAY with the weight the HELLO carried; when the router has its
      own LSA, that LSA now describes the link and goes to every port. */
  lemma HelloFromNewNeighbour(rd: RouterDescription, ports: seq<Link>, view: Store, message: SospfPacket, reply: SospfPacket)
    requires TableOk(ports) && !HasNeighbour(ports, message.neighborID) && |ports| < PORT_COUNT
    requires reply.sospfType == HELLO && reply.neighborID == message.neighborID
    ensures var o := HelloOutcome(rd, ports, view, message, reply);
              |o.ports| == |ports| + 1 &&
              o.ports[|ports|] == TwoWay(HelloLink(rd, message)) &&
              o.ports[..|ports|] == ports &&
              (rd.simulatedIPAddress in view ==>
                 o.view[rd.simulatedIPAddress].links == view[rd.simulatedIPAddress].links + [Describe(HelloLink(rd, message))] &&
                 |o.sent| == 1 + |o.ports|)
  {
    var id := message.neighborID;
    var added := AddNeighbour(rd, ports, message);
    assert added == ports + [HelloLink(rd, message)];
    AddNeighbourKeepsTable(rd, ports, message);
    PromoteEffect(added, id);
    var o := HelloOutcome(rd, ports, view, message, reply);
    forall k | 0 <= k < |ports|
      ensures o.ports[k] == ports[k]
    {
      assert added[k] == ports[k];
      assert !Neighbours(ports, k, id);
    }
    assert Neighbours(added, |ports|, id);
    OnlyPort(added, id, |ports|);
    PortIndexIsFirst(added, id);
    if rd.simulatedIPAddress in view {
      AddLinkEffect(view, rd.simulatedIPAddress, Describe(HelloLink(rd, message)));
      FloodReachesEveryPort(rd, o.ports, HelloReplyUpdate(view, rd.simulatedIPAddress, added, id).result.value);
    }
  }

  /** The link-state update handler's loop, one LSA further on. */
  lemma LinkStateUpdateStep(rd: RouterDescription, ports: seq<Link>, view0: Store, lsas: seq<LsaValue>, k: nat)
    requires k < |lsas|
    ensures AcceptAll(view0, lsas[..k + 1]).0 == Accept(AcceptAll(view0, lsas[..k]).0, lsas[k])
    ensures FloodAll(rd, ports, AcceptAll(view0, lsas[..k + 1]).1) ==
              FloodAll(rd, ports, AcceptAll(view0, lsas[..k]).1) +
              if IsNewer(AcceptAll(view0, lsas[..k]).0, lsas[k]) then Flood(rd, ports, lsas[k]) else []
  {
    AcceptAllStep(view0, lsas, k);
    var flooded := AcceptAll(view0, lsas[..k]).1;
    FloodAllAppend(rd, ports, flooded, lsas[k]);
    if !IsNewer(AcceptAll(view0, lsas[..k]).0, lsas[k]) {
      assert flooded + [] == flooded;
    }
  }

  lemma AppendAssoc<T>(a: seq<T>, b: seq<T>, c: seq<T>)
    ensures (a + b) + c == a + (b + c)
  {
  }

  /** FloodAll over one more LSA. */
  lemma FloodAllAppend(rd: RouterDescription, ports: seq<Link>, lsas: seq<LsaValue>, lsa: LsaValue)
    ensures FloodAll(rd, ports, lsas + [lsa]) == FloodAll(rd, ports, lsas) + Flood(rd, ports, lsa)
  {
    assert (lsas + [lsa])[..|lsas|] == lsas;
  }

  /** The LSA object a packet delivers: deserialised, so a fresh object. */
  method NewLsa(v: LsaValue) returns (lsa: LSA)
    ensures fresh(lsa) && lsa.Value() == v
  {
    lsa := new LSA();
    lsa.linkStateID := v.linkStateID;
    lsa.lsaSeqNumber := v.lsaSeqNumber;
    lsa.links := v.links;
  }

  class ServerThread {
    const router: Router

    constructor (router: Router)
      ensures this.router == router
    {
      this.router := router;
    }

    /** sendLSP: one link-state update carrying `lsa` over every port. */
    method SendLsp(lsa: LsaValue)
      requires router.Valid()
      modifies router`outbox
      ensures router.Valid()
      ensures router.outbox == old(router.outbox) + Flood(router.rd, router.ports, lsa)
      ensures router.lsd.View() == old(router.lsd.View())
    {
      ghost var out0 := router.outbox;
      for k := 0 to |router.ports|
        invariant router.outbox == out0 + Flood(router.rd, router.ports[..k], lsa)
      {
        assert router.ports[..k + 1][..k] == router.ports[..k];
        router.outbox := router.outbox + [LspPacket(router.rd, router.ports[k], lsa)];
      }
      assert router.ports[..|router.ports|] == router.ports;
    }

    /** updateLSA: edits the router's own LSA in place and files it again.
        None: the call ends in a NullPointerException because the router
        has no own entry (in mode 1, no own entry left once the
        neighbour's entry is removed). */
    method UpdateLsa(link: Link, actionFlag: int) returns (r: Option<LSA>)
      requires router.Valid()
      modifies router.lsd, router.lsd.store.Values
      ensures router.Valid()
      ensures router.lsd.View() == LsaUpdate(old(router.lsd.View()), router.rd.simulatedIPAddress, link, actionFlag).store
      ensures r.Some? <==> LsaUpdate(old(router.lsd.View()), router.rd.simulatedIPAddress, link, actionFlag).result.Some?
      ensures r.Some? ==> r.value.Value() == LsaUpdate(old(router.lsd.View()), router.rd.simulatedIPAddress, link, actionFlag).result.value
      ensures router.lsd.store.Values <= old(router.lsd.store.Values)
    {
      var lsd := router.lsd;
      var self := router.rd.simulatedIPAddress;
      ghost var view0 := lsd.View();
      var tempLSA := IncrementOwn();
      ghost var view1 := lsd.View();
      if actionFlag == 0 {
        if tempLSA.None? {
          return None;
        }
        AddOwnLink(tempLSA.value, link);
        AddLinkSteps(view0, self, Describe(link), view1);
      } else {
        tempLSA := DropOwnLinks(link.router2.simulatedIPAddress, view0);
        if tempLSA.None? {
          return None;
        }
      }
      ghost var filed := lsd.View();
      Refile(lsd.store, self);
      PutLsa(tempLSA.value);
      Refile(filed, self);
      r := tempLSA;
    }

    /** Mode 1 after the increment: `_store.remove(neighbour)`, then the
        removal loop on the own LSA object if one is left. `view0` is the
        store before the increment. */
    method DropOwnLinks(neighbour: string, ghost view0: Store) returns (t: Option<LSA>)
      requires router.Valid()
      requires var self := router.rd.simulatedIPAddress;
                 if self in view0 then router.lsd.View() == view0[self := view0[self].(lsaSeqNumber := Inc32(view0[self].lsaSeqNumber))]
                 else router.lsd.View() == view0
      modifies router.lsd, router.lsd.store.Values
      ensures router.Valid()
      ensures router.lsd.store.Values <= old(router.lsd.store.Values)
      ensures var du := DropNeighbourUpdate(view0, router.rd.simulatedIPAddress, neighbour);
                router.lsd.View() == du.store && (t.Some? <==> du.result.Some?) &&
                (t.Some? ==> router.rd.simulatedIPAddress in router.lsd.store &&
                             router.lsd.store[router.rd.simulatedIPAddress] == t.value &&
                             t.value.Value() == du.result.value)
    {
      var lsd := router.lsd;
      var self := router.rd.simulatedIPAddress;
      ghost var view1 := lsd.View();
      ghost var store1 := lsd.store;
      RemoveEntry(neighbour);
      ShrinkValues(store1, neighbour);
      ghost var view2 := lsd.View();
      if self !in lsd.store {
        DropFails(view0, self, neighbour, view1, view2);
        return None;
      }
      var own := lsd.store[self];
      ghost var before := own.Value();
      assert before == view2[self];
      StripOwn(own, neighbour);
      ghost var after := own.Value();
      DropSteps(view0, self, neighbour, view1, view2, before, after);
      t := Some(own);
    }

    /** `router.lsd._store.put(lsa.linkStateID, lsa)`. */
    method PutLsa(lsa: LSA)
      requires router.Valid()
      modifies router.lsd
      ensures router.Valid()
      ensures router.lsd.store == old(router.lsd.store)[lsa.linkStateID := lsa]
      ensures router.lsd.View() == old(router.lsd.View())[lsa.linkStateID := lsa.Value()]
    {
      router.lsd.store := router.lsd.store[lsa.linkStateID := lsa];
    }

    /** Mode 0 on the own LSA object: a description of the neighbour is
        appended. */
    method AddOwnLink(own: LSA, link: Link)
      requires router.Valid()
      requires router.rd.simulatedIPAddress in router.lsd.store && own == router.lsd.store[router.rd.simulatedIPAddress]
      modifies own
      ensures router.Valid()
      ensures router.lsd.View() == old(router.lsd.View())[router.rd.simulatedIPAddress :=
                old(own.Value()).(links := old(own.links) + [Describe(link)])]
    {
      OthersUntouched(router.lsd.store, router.rd.simulatedIPAddress, own);
      var _ := own.AddLinkDescription(link.router2.simulatedIPAddress, link.router2.processPortNumber, link.weight);
    }

    /** `_store.remove(neighbour)`. */
    method RemoveEntry(neighbour: string)
      requires router.Valid()
      modifies router.lsd
      ensures router.Valid()
      ensures router.lsd.store == old(router.lsd.store) - {neighbour}
      ensures router.lsd.View() == old(router.lsd.View()) - {neighbour}
    {
      router.lsd.store := router.lsd.store - {neighbour};
    }

    /** Mode 1 on the own LSA object: the removal loop. */
    method StripOwn(own: LSA, neighbour: string)
      requires router.Valid()
      requires router.rd.simulatedIPAddress in router.lsd.store && own == router.lsd.store[router.rd.simulatedIPAddress]
      modifies own
      ensures router.Valid()
      ensures own.Value() == StripEntry(old(own.Value()), neighbour)
      ensures router.lsd.View() == old(router.lsd.View())[router.rd.simulatedIPAddress := own.Value()]
    {
      OthersUntouched(router.lsd.store, router.rd.simulatedIPAddress, own);
      StripDescriptions(own, neighbour);
    }

    /** The first step of updateLSA: `lsaSeqNumber++` on the own LSA, if
        there is one. */
    method IncrementOwn() returns (tempLSA: Option<LSA>)
      requires router.Valid()
      modifies router.lsd.store.Values
      ensures router.Valid() && router.lsd.store == old(router.lsd.store)
      ensures tempLSA.Some? <==> router.rd.simulatedIPAddress in router.lsd.store
      ensures tempLSA.Some? ==> tempLSA.value == router.lsd.store[router.rd.simulatedIPAddress]
      ensures router.rd.simulatedIPAddress !in router.lsd.store ==> router.lsd.View() == old(router.lsd.View())
      ensures router.rd.simulatedIPAddress in router.lsd.store ==>
                router.lsd.View() == old(router.lsd.View())[router.rd.simulatedIPAddress :=
                  old(router.lsd.View())[router.rd.simulatedIPAddress].(lsaSeqNumber := Inc32(old(router.lsd.View())[router.rd.simulatedIPAddress].lsaSeqNumber))]
    {
      var lsd := router.lsd;
      var self := router.rd.simulatedIPAddress;
      tempLSA := None;
      if self in lsd.store {
        var own := lsd.store[self];
        OthersUntouched(lsd.store, self, own);
        own.lsaSeqNumber := Inc32(own.lsaSeqNumber);
        tempLSA := Some(own);
      }
    }

    /** The HELLO reply's loop: each port leading to `id` goes TWO_WAY,
        the own LSA gains a description of it and is flooded. The handler
        stops where updateLSA fails. */
    method PromoteNeighbour(id: string)
      requires router.Valid()
      modifies router`ports, router`outbox, router.lsd, router.lsd.store.Values
      ensures router.Valid()
      ensures router.ports == Promote(old(router.ports), id)
      ensures var u := HelloReplyUpdate(old(router.lsd.View()), router.rd.simulatedIPAddress, old(router.ports), id);
                router.lsd.View() == u.store &&
                router.outbox == old(router.outbox) + if u.result.Some? then Flood(router.rd, router.ports, u.result.value) else []
    {
      ghost var ports0 := router.ports;
      ghost var store0 := router.lsd.store;
      ghost var view0 := router.lsd.View();
      ghost var out0 := router.outbox;
      ghost var u := HelloReplyUpdate(view0, router.rd.simulatedIPAddress, ports0, id);
      ghost var found: Option<nat> := None;
      PortIndexIsFirst(ports0, id);
      var i := 0;
      while i < |router.ports|
        invariant router.Valid() && DistinctNeighbours(ports0)
        invariant 0 <= i <= |ports0| == |router.ports|
        invariant found.None? ==>
                    router.ports == ports0 && router.lsd.store == store0 && router.lsd.View() == view0 &&
                    router.outbox == out0 && forall k :: 0 <= k < i ==> !Neighbours(ports0, k, id)
        invariant found.Some? ==>
                    found.value < i && Neighbours(ports0, found.value, id) &&
                    router.ports == ports0[found.value := TwoWay(ports0[found.value])] &&
                    u.result.Some? && router.lsd.View() == u.store &&
                    router.outbox == out0 + Flood(router.rd, router.ports, u.result.value)
      {
        if router.ports[i].router2.simulatedIPAddress == id {
          assert found.None?;
          OnlyPort(ports0, id, i);
          var promoted := PromoteAt(i);
          if !promoted {
            PromoteOne(ports0, id, i);
            return;
          }
          found := Some(i);
        }
        i := i + 1;
      }
      if found.None? {
        PromoteNone(ports0, id);
      } else {
        PromoteOne(ports0, id, found.value);
      }
    }

    /** One matching port of the HELLO reply's loop: `status = TWO_WAY`,
        then `sendLSP(updateLSA(currLink, 0))`; false when updateLSA
        fails. */
    method PromoteAt(i: nat) returns (promoted: bool)
      requires router.Valid() && i < |router.ports|
      modifies router`ports, router`outbox, router.lsd, router.lsd.store.Values
      ensures router.Valid()
      ensures router.ports == old(router.ports)[i := TwoWay(old(router.ports)[i])]
      ensures var u := AddLinkUpdate(old(router.lsd.View()), router.rd.simulatedIPAddress, Describe(old(router.ports)[i]));
                router.lsd.View() == u.store && (promoted <==> u.result.Some?) &&
                router.outbox == old(router.outbox) + if promoted then Flood(router.rd, router.ports, u.result.value) else []
    {
      ghost var view0 := router.lsd.View();
      ghost var u := AddLinkUpdate(view0, router.rd.simulatedIPAddress, Describe(router.ports[i]));
      TwoWayKeepsTable(router.ports, i);
      var currLink := TwoWay(router.ports[i]);
      router.ports := router.ports[i := currLink];
      assert router.lsd.View() == view0;
      assert LsaUpdate(view0, router.rd.simulatedIPAddress, currLink, 0) == u;
      var lsa := UpdateLsa(currLink, 0);
      promoted := lsa.Some?;
      if promoted {
        assert lsa.value.Value() == u.result.value;
        SendLsp(lsa.value.Value());
      } else {
        assert router.outbox == old(router.outbox) + [];
      }
    }

    /** One packet written to the connection. */
    method Send(packet: SospfPacket)
      requires router.Valid()
      modifies router`outbox
      ensures router.Valid()
      ensures router.outbox == old(router.outbox) + [packet]
      ensures router.lsd.View() == old(router.lsd.View())
    {
      router.outbox := router.outbox + [packet];
    }

    /** The first half of the HELLO branch: the sender gets the last port,
        in state INIT, when it is no neighbour yet and a port is free. */
    method AddIfNew(message: SospfPacket)
      requires router.Valid()
      modifies router`ports
      ensures router.Valid()
      ensures router.ports == AddNeighbour(router.rd, old(router.ports), message)
      ensures router.lsd.View() == old(router.lsd.View())
    {
      var addNeighbour := IsNewNeighbour(router.ports, message.neighborID);
      if addNeighbour {
        if |router.ports| < PORT_COUNT {
          var remoteRouter := RouterDescription(message.srcProcessIP, message.neighborID, message.srcProcessPort, Some(INIT));
          AddNeighbourKeepsTable(router.rd, router.ports, message);
          router.ports := router.ports + [Link(router.rd, remoteRouter, message.srcWeight)];
        }
      }
    }

    /** run() on a HELLO, with the neighbour's reply to the response. */
    method ReceiveHello(message: SospfPacket, reply: SospfPacket)
      requires router.Valid()
      modifies router`ports, router`outbox, router.lsd, router.lsd.store.Values
      ensures router.Valid()
      ensures var o := HelloOutcome(router.rd, old(router.ports), old(router.lsd.View()), message, reply);
                router.ports == o.ports && router.lsd.View() == o.view && router.outbox == old(router.outbox) + o.sent
    {
      ghost var view0 := router.lsd.View();
      ghost var added := AddNeighbour(router.rd, router.ports, message);
      ghost var o := HelloOutcome(router.rd, router.ports, view0, message, reply);
      AddIfNew(message);
      ghost var out1 := router.outbox;
      Send(HelloResponse(router.rd));
      if reply.sospfType == HELLO {
        ghost var u := HelloReplyUpdate(view0, router.rd.simulatedIPAddress, added, reply.neighborID);
        ghost var out2 := router.outbox;
        PromoteNeighbour(reply.neighborID);
        assert router.lsd.View() == u.store;
        ghost var flooded := if u.result.Some? then Flood(router.rd, router.ports, u.result.value) else [];
        assert router.outbox == out2 + flooded;
        AppendAssoc(out1, [HelloResponse(router.rd)], flooded);
        assert o.ports == router.ports;
        assert o.view == u.store;
        assert o.sent == [HelloResponse(router.rd)] + flooded;
      } else {
        assert o.ports == router.ports;
        assert o.view == view0;
        assert o.sent == [HelloResponse(router.rd)];
      }
    }

    /** run() on a link-state update: each LSA of the packet that is newer
        than the stored one is filed and flooded on. */
    method ReceiveLinkStateUpdate(message: SospfPacket)
      requires router.Valid()
      modifies router`outbox, router.lsd
      ensures router.Valid()
      ensures var o := LinkStateUpdateOutcome(router.rd, router.ports, old(router.lsd.View()), message);
                router.lsd.View() == o.view && router.outbox == old(router.outbox) + o.sent
    {
      ghost var view0 := router.lsd.View();
      ghost var out0 := router.outbox;
      var lsas := message.lsaArray;
      for k := 0 to |lsas|
        invariant router.Valid()
        invariant router.lsd.View() == AcceptAll(view0, lsas[..k]).0
        invariant router.outbox == out0 + FloodAll(router.rd, router.ports, AcceptAll(view0, lsas[..k]).1)
      {
        ghost var flooded := FloodAll(router.rd, router.ports, AcceptAll(view0, lsas[..k]).1);
        LinkStateUpdateStep(router.rd, router.ports, view0, lsas, k);
        AcceptOne(lsas[k]);
        AppendAssoc(out0, flooded, if IsNewer(AcceptAll(view0, lsas[..k]).0, lsas[k]) then Flood(router.rd, router.ports, lsas[k]) else []);
      }
      assert lsas[..|lsas|] == lsas;
    }

    /** One LSA of a link-state update: filed and flooded on when it is
        newer than the stored one. */
    method AcceptOne(receivedLSA: LsaValue)
      requires router.Valid()
      modifies router`outbox, router.lsd
      ensures router.Valid()
      ensures router.lsd.View() == Accept(old(router.lsd.View()), receivedLSA)
      ensures router.outbox == old(router.outbox) +
                if IsNewer(old(router.lsd.View()), receivedLSA) then Flood(router.rd, router.ports, receivedLSA) else []
    {
      var id := receivedLSA.linkStateID;
      if id !in router.lsd.store || receivedLSA.lsaSeqNumber > router.lsd.store[id].lsaSeqNumber {
        var lsa := NewLsa(receivedLSA);
        PutLsa(lsa);
        SendLsp(receivedLSA);
      } else {
        assert router.outbox == old(router.outbox) + [];
      }
    }

    /** run() on a teardown. `deleted` is false when no port leads to the
        sender: the handler then throws after the confirmation. */
    method ReceiveTeardown(message: SospfPacket) returns (deleted: bool)
      requires router.Valid()
      modifies router`ports, router`outbox, router.lsd, router.lsd.store.Values
      ensures router.Valid()
      ensures deleted <==> HasNeighbour(old(router.ports), message.srcIP)
      ensures var o := TeardownOutcome(router.rd, old(router.ports), old(router.lsd.View()), message);
                router.ports == o.ports && router.lsd.View() == o.view && router.outbox == old(router.outbox) + o.sent
    {
      ghost var view0 := router.lsd.View();
      ghost var o := TeardownOutcome(router.rd, router.ports, view0, message);
      var confirmDisconnect := TeardownConfirmation(router.rd, message);
      ghost var out1 := router.outbox;
      Send(confirmDisconnect);
      var index := FindPort(router.ports, message.srcIP);
      if index.None? {
        assert o.ports == router.ports && o.view == view0 && o.sent == [confirmDisconnect];
        return false;
      }
      var i := index.value;
      ghost var u := DropNeighbourUpdate(view0, router.rd.simulatedIPAddress, message.srcIP);
      ghost var out2 := router.outbox;
      DisconnectPort(i, message.srcIP);
      ghost var flooded := if u.result.Some? then Flood(router.rd, router.ports, u.result.value) else [];
      assert router.outbox == out2 + flooded;
      AppendAssoc(out1, [confirmDisconnect], flooded);
      assert o.ports == router.ports && o.view == router.lsd.View() && o.sent == [confirmDisconnect] + flooded;
      deleted := true;
    }

    /** The removal half of the TEARDOWN branch: the first port to `id`
        leaves the table, updateLSA drops the neighbour, and the router's
        new LSA is flooded over the remaining ports. */
    method DisconnectPort(i: nat, id: string)
      requires router.Valid()
      requires i < |router.ports| && IsFirstPort(router.ports, id, i)
      modifies router`ports, router`outbox, router.lsd, router.lsd.store.Values
      ensures router.Valid()
      ensures router.ports == RemovePort(old(router.ports), i)
      ensures var u := DropNeighbourUpdate(old(router.lsd.View()), router.rd.simulatedIPAddress, id);
                router.lsd.View() == u.store &&
                router.outbox == old(router.outbox) + if u.result.Some? then Flood(router.rd, router.ports, u.result.value) else []
    {
      ghost var view0 := router.lsd.View();
      var confirmDead := router.ports[i];
      RemoveFirstPort(router.ports, id, i);
      router.ports := router.ports[..i] + router.ports[i + 1..];
      assert router.lsd.View() == view0;
      var freshLSA := UpdateLsa(confirmDead, 1);
      if freshLSA.Some? {
        SendLsp(freshLSA.value.Value());
      }
    }

    /** run(): one packet read from the connection, dispatched on its type;
        `reply` is the packet the neighbour answers a HELLO response with. */
    method Run(message: SospfPacket, reply: SospfPacket)
      requires router.Valid()
      modifies router`ports, router`outbox, router.lsd, router.lsd.store.Values
      ensures router.Valid()
      ensures var o := Handle(router.rd, old(router.ports), old(router.lsd.View()), message, reply);
                router.ports == o.ports && router.lsd.View() == o.view && router.outbox == old(router.outbox) + o.sent
    {
      if message.sospfType == HELLO {
        ReceiveHello(message, reply);
      } else if message.sospfType == LINK_STATE_UPDATE {
        ReceiveLinkStateUpdate(message);
      } else if message.sospfType == TEARDOWN {
        var _ := ReceiveTeardown(message);
      } else {
        assert router.outbox == old(router.outbox) + [];
      }
    }
  }
}
