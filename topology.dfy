/** The topology snapshot the shortest-path search reads: every originator
    in the link-state database with the links its LSA advertises. */
module Topology {
  import opened JavaInt
  import opened Message

  /** A simulated IP address. */
  type Addr = string

  /** Originator -> the link descriptions of its LSA, in LSA order. */
  type Graph = map<Addr, seq<LinkDescription>>

  /** One element of a reported path: a router and the weight of the hop
      that reaches it (0 for the first element, which no hop reaches). */
  datatype Hop = Hop(address: Addr, weight: int)

  /** Descriptions carrying the self sentinel port are not edges. */
  predicate Relaxable(ld: LinkDescription) {
    ld.portNum != SELF_PORT
  }

  /** `u` advertises a real link to `v` of weight `w`. */
  ghost predicate EdgeWith(g: Graph, u: Addr, v: Addr, w: int) {
    u in g && exists j :: 0 <= j < |g[u]| && Relaxable(g[u][j]) && g[u][j].linkID == v && g[u][j].tosMetrics == w
  }

  /** Every hop of `p` is an advertised link with the weight the hop carries. */
  ghost predicate IsWeightedPath(g: Graph, p: seq<Hop>) {
    forall k :: 1 <= k < |p| ==> EdgeWith(g, p[k - 1].address, p[k].address, p[k].weight)
  }

  /** The total weight of the hops of a path (the first element's weight is not a hop). */
  function Weight(p: seq<Hop>): int {
    if |p| <= 1 then 0 else Weight(p[..|p| - 1]) + p[|p| - 1].weight
  }

  ghost predicate IsRoute(g: Graph, source: Addr, destination: Addr, p: seq<Hop>) {
    |p| > 0 && p[0].address == source && p[|p| - 1].address == destination && IsWeightedPath(g, p)
  }

  ghost predicate Reachable(g: Graph, source: Addr, destination: Addr) {
    exists p :: IsRoute(g, source, destination, p)
  }

  /** What the search silently assumes of the database: the source router
      has an entry, every advertised link leads to a router that has one,
      and weights are in 0..32767. The weights filed are Java ints; the
      bound is an assumption of the model, under which, with fewer than
      65536 routers, no distance sum can overflow a Java int, nor reach the
      Integer.MAX_VALUE that stands for infinity. */
  ghost predicate WellFormed(g: Graph, source: Addr) {
    && source in g
    && |g| < 0x1_0000
    && forall u, j :: u in g && 0 <= j < |g[u]| && Relaxable(g[u][j]) ==>
         g[u][j].linkID in g && 0 <= g[u][j].tosMetrics <= SHORT_MAX
  }

  ghost predicate HasRelaxedSelfLink(g: Graph, n: Addr) {
    n in g && exists j :: 0 <= j < |g[n]| && Relaxable(g[n][j]) && g[n][j].linkID == n
  }

  /** Routers that advertise a real (non-sentinel) link to themselves. */
  ghost function SelfLinked(g: Graph): set<Addr> {
    set n | n in g.Keys && HasRelaxedSelfLink(g, n)
  }

  /** Appending a hop adds its weight. */
  lemma {:induction false} WeightAppend(p: seq<Hop>, h: Hop)
    requires |p| > 0
    ensures Weight(p + [h]) == Weight(p) + h.weight
  {
    assert (p + [h])[..|p|] == p;
  }

  /** Extending a path by one advertised link gives a path, one hop heavier. */
  lemma {:induction false} ExtendPath(g: Graph, p: seq<Hop>, h: Hop)
    requires |p| > 0 && IsWeightedPath(g, p)
    requires EdgeWith(g, p[|p| - 1].address, h.address, h.weight)
    ensures IsWeightedPath(g, p + [h])
    ensures Weight(p + [h]) == Weight(p) + h.weight
  {
    var q := p + [h];
    forall k | 1 <= k < |q|
      ensures EdgeWith(g, q[k - 1].address, q[k].address, q[k].weight)
    {
      if k < |p| {
        assert q[k - 1] == p[k - 1] && q[k] == p[k];
      }
    }
    WeightAppend(p, h);
  }
}
