/** The protocol's messages: link descriptions, link-state advertisements
    (LSAs) and the SOSPF packet that carries them. */
module Message {
  import opened JavaInt

  /** The sentinel port number of the description a router keeps of itself. */
  const SELF_PORT: int := -1

  /** One directed, weighted edge advertised inside an LSA: the neighbour's
      simulated IP (`linkID`), the port it is reached on and the weight
      (`tosMetrics`). */
  datatype LinkDescription = LinkDescription(linkID: string, portNum: Int32, tosMetrics: Int32)

  /** The value of an LSA, as it travels inside a packet (serialisation
      copies it) and as the shortest-path search reads it. */
  datatype LsaValue = LsaValue(linkStateID: string, lsaSeqNumber: Int32, links: seq<LinkDescription>)

  /** SOSPF packet types. */
  const HELLO: int := 0
  const LINK_STATE_UPDATE: int := 1
  const TEARDOWN: int := 2

  /** The fields of an SOSPF packet that the router reads or writes. */
  datatype SospfPacket = SospfPacket(
    srcProcessIP: string,
    srcProcessPort: Int16,
    srcWeight: Int32,
    srcIP: string,
    dstIP: string,
    sospfType: Int16,
    neighborID: string,
    lsaArray: seq<LsaValue>)

  /** A link-state advertisement, updated in place by its owner. */
  class LSA {
    /** Simulated IP of the router that originated this LSA. */
    var linkStateID: string
    var lsaSeqNumber: Int32
    var links: seq<LinkDescription>

    function Value(): (v: LsaValue)
      reads this
      ensures v.linkStateID == linkStateID && v.lsaSeqNumber == lsaSeqNumber && v.links == links
    {
      LsaValue(linkStateID, lsaSeqNumber, links)
    }

    /** A fresh LSA: the lowest sequence number and no links. The source's
        null originator is the empty string here; every caller assigns the
        originator right after construction. */
    constructor ()
      ensures linkStateID == "" && lsaSeqNumber == INT_MIN && links == []
    {
      linkStateID := "";
      lsaSeqNumber := INT_MIN;
      links := [];
    }

    /** Appends one description of a neighbour and returns the receiver. */
    method AddLinkDescription(r2SimIP: string, r2PortNum: Int32, r2Weight: Int32) returns (r: LSA)
      modifies this
      ensures links == old(links) + [LinkDescription(r2SimIP, r2PortNum, r2Weight)]
      ensures linkStateID == old(linkStateID) && lsaSeqNumber == old(lsaSeqNumber)
      ensures r == this
    {
      links := links + [LinkDescription(r2SimIP, r2PortNum, r2Weight)];
      r := this;
    }
  }
}
