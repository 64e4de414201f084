/** Dijkstra's search of LinkStateDatabase.getShortestPath, with the
    frontier extraction of getMinimum and the path rebuild. */
module ShortestPath {
  import opened JavaInt
  import opened Message
  import opened Wrappers
  import opened Topology

  /** The search's four working collections: the frontier (`openSet`), the
      settled routers (`closedSet`), tentative distances and predecessors.
      The source's explicit `predecessor.put(source, null)` is the absence
      of a key here: `get` answers null either way. */
  datatype Search = Search(
    openSet: set<Addr>,
    closedSet: set<Addr>,
    distance: map<Addr, Int32>,
    predecessor: map<Addr, Addr>)

  /** Scans the frontier and keeps the first router whose distance is
      strictly below the running minimum; ties go to whichever router the
      set's iteration order reaches first. */
  method GetMinimum(openSet: set<Addr>, distance: map<Addr, Int32>) returns (minimum: Option<Addr>)
    requires openSet <= distance.Keys
    ensures minimum.None? <==> openSet == {}
    ensures minimum.Some? ==> minimum.value in openSet
    ensures minimum.Some? ==> forall r :: r in openSet ==> distance[minimum.value] <= distance[r]
  {
    minimum := None;
    var unvisited := openSet;
    while unvisited != {}
      invariant unvisited <= openSet
      invariant minimum.None? <==> unvisited == openSet
      invariant minimum.Some? ==> minimum.value in openSet - unvisited
      invariant minimum.Some? ==> forall r :: r in openSet - unvisited ==> distance[minimum.value] <= distance[r]
      decreases unvisited
    {
      var router :| router in unvisited;
      if minimum.None? || distance[router] < distance[minimum.value] {
        minimum := Some(router);
      }
      unvisited := unvisited - {router};
    }
  }

  /** The body of the search's inner loop for one link description of
      `current`: sentinel links and settled targets are skipped; otherwise
      the target joins the frontier, and when the Java int sum
      `distance[current] + weight` is below the target's distance, both the
      distance and the predecessor of the target are overwritten. */
  function RelaxStep(s: Search, current: Addr, neighbour: LinkDescription): (r: Search)
    requires Relaxable(neighbour) && neighbour.linkID !in s.closedSet ==>
               current in s.distance && neighbour.linkID in s.distance
    ensures r.closedSet == s.closedSet && r.distance.Keys == s.distance.Keys
    ensures !Relaxable(neighbour) ==> r == s
    ensures neighbour.linkID in s.closedSet ==> r == s
    ensures s.openSet <= r.openSet && r.openSet - s.openSet <= {neighbour.linkID}
    ensures Relaxable(neighbour) && neighbour.linkID !in s.closedSet ==>
              neighbour.linkID in r.openSet &&
              r.distance[neighbour.linkID] <= Wrap32(s.distance[current] + neighbour.tosMetrics)
    ensures forall n :: n in s.distance ==> r.distance[n] <= s.distance[n]
    ensures forall n :: n in s.distance && r.distance[n] < s.distance[n] ==>
              n == neighbour.linkID && n in r.predecessor && r.predecessor[n] == current &&
              r.distance[n] == Wrap32(s.distance[current] + neighbour.tosMetrics)
    ensures forall n :: n in s.distance && r.distance[n] == s.distance[n] ==>
              (n in r.predecessor <==> n in s.predecessor) &&
              (n in s.predecessor ==> r.predecessor[n] == s.predecessor[n])
    ensures forall n :: n !in s.distance ==>
              (n in r.predecessor <==> n in s.predecessor) &&
              (n in s.predecessor ==> r.predecessor[n] == s.predecessor[n])
  {
    if !Relaxable(neighbour) || neighbour.linkID in s.closedSet then
      s
    else
      var target := neighbour.linkID;
      var distanceFromSource := s.distance[current];
      var distanceToNeighbour := s.distance[target];
      var candidate := Wrap32(distanceFromSource + neighbour.tosMetrics);
      if candidate < distanceToNeighbour then
        Search(s.openSet + {target}, s.closedSet, s.distance[target := candidate], s.predecessor[target := current])
      else
        s.(openSet := s.openSet + {target})
  }

  // ---------------------------------------------------------------------
  // The search invariant, piece by piece.

  /** Collections stay within the database; the source is reached, at
      distance 0, and is the one reached router without a predecessor. */
  ghost predicate Shape(g: Graph, source: Addr, s: Search) {
    && source in g
    && s.openSet <= g.Keys && s.closedSet <= g.Keys && s.distance.Keys == g.Keys
    && source in s.openSet + s.closedSet
    && source in s.distance && s.distance[source] == 0
    && s.predecessor.Keys == (s.openSet + s.closedSet) - {source}
  }

  /** A router has a finite distance (below Integer.MAX_VALUE) exactly
      when it has been reached. */
  ghost predicate Finite(g: Graph, s: Search, reached: set<Addr>) {
    forall n :: n in g && n in s.distance ==> (n in reached <==> s.distance[n] < INT_MAX)
  }

  /** Reached distances are at most k hops of the largest weight. */
  ghost predicate Bounded(s: Search, reached: set<Addr>, k: int) {
    forall n :: n in reached && n in s.distance ==> 0 <= s.distance[n] <= k * SHORT_MAX
  }

  /** Each predecessor is joined to its router by an advertised link whose
      weight is the difference of their distances. */
  ghost predicate PredEdges(g: Graph, s: Search) {
    forall t :: t in s.predecessor ==>
      t in s.distance && s.predecessor[t] in s.distance &&
      EdgeWith(g, s.predecessor[t], t, s.distance[t] as int - s.distance[s.predecessor[t]])
  }

  ghost predicate PredSettled(s: Search) {
    forall t :: t in s.predecessor ==> s.predecessor[t] in s.closedSet
  }

  /** `rank` numbers the settled routers in settling order; a settled
      router's predecessor was settled before it. */
  ghost predicate Ranked(s: Search, rank: map<Addr, nat>) {
    && rank.Keys == s.closedSet
    && (forall c :: c in rank ==> rank[c] < |s.closedSet|)
    && (forall t :: t in s.predecessor && t in rank && s.predecessor[t] in rank ==>
          rank[s.predecessor[t]] < rank[t])
  }

  /** The first `upTo` links of `c` lead to reached routers whose distance
      is at most `c`'s distance plus the link's weight. */
  ghost predicate EdgesRelaxedFrom(g: Graph, s: Search, c: Addr, upTo: int) {
    c in g && c in s.distance &&
    forall j :: 0 <= j < upTo && j < |g[c]| && Relaxable(g[c][j]) ==>
      g[c][j].linkID in s.openSet + s.closedSet && g[c][j].linkID in s.distance &&
      s.distance[g[c][j].linkID] <= s.distance[c] + g[c][j].tosMetrics
  }

  ghost predicate ClosedRelaxed(g: Graph, s: Search) {
    forall c :: c in s.closedSet && c in g ==> EdgesRelaxedFrom(g, s, c, |g[c]|)
  }

  /** No settled router is farther than a router still waiting in the frontier. */
  ghost predicate SettledFirst(s: Search) {
    forall x, y :: x in s.closedSet && y in s.openSet && y !in s.closedSet && x in s.distance && y in s.distance ==>
      s.distance[x] <= s.distance[y]
  }

  /** A settled router is back in the frontier only after relaxing a real
      link to itself, and then only once; `iterations` counts extractions. */
  ghost predicate Reextracted(g: Graph, s: Search, reext: set<Addr>, iterations: nat) {
    && reext <= s.closedSet && reext <= SelfLinked(g)
    && iterations == |s.closedSet| + |reext|
    && forall x :: x in s.openSet && x in s.closedSet ==> x !in reext && HasRelaxedSelfLink(g, x)
  }

  // ---------------------------------------------------------------------
  // Relaxing the links of the extracted router.

  /** What holds of the search `s0` when the links of `c` are about to be
      relaxed: `c` has left the frontier, its distance leaves room for one
      more hop, unreached routers are still at infinity, and either `c` is
      settled for the first time (no settled router is farther) or it is
      settled already and its links were relaxed back then. */
  ghost predicate ReadyToRelax(g: Graph, source: Addr, s0: Search, c: Addr) {
    && WellFormed(g, source)
    && c in g
    && s0.distance.Keys == g.Keys && s0.openSet <= g.Keys && s0.closedSet <= g.Keys
    && c !in s0.openSet
    && 0 <= s0.distance[c] && s0.distance[c] + SHORT_MAX < INT_MAX
    && (forall n :: n in g && n !in s0.openSet + s0.closedSet + {c} ==> s0.distance[n] == INT_MAX)
    && (c !in s0.closedSet ==> forall x :: x in s0.closedSet ==> s0.distance[x] <= s0.distance[c])
    && (c in s0.closedSet ==> EdgesRelaxedFrom(g, s0, c, |g[c]|))
  }

  /** `n`'s distance was lowered through a link of `c`, so `c` is now its predecessor. */
  ghost predicate Lowered(g: Graph, s0: Search, c: Addr, s: Search, n: Addr)
    requires c in s0.distance && n in s0.distance && n in s.distance
  {
    && s0.distance[c] <= s.distance[n] < s0.distance[n]
    && s.distance[n] <= s0.distance[c] + SHORT_MAX
    && n !in s0.closedSet && n != c && n in s.openSet
    && n in s.predecessor && s.predecessor[n] == c
    && EdgeWith(g, c, n, s.distance[n] as int - s0.distance[c])
  }

  ghost predicate SamePredecessor(s0: Search, s: Search, n: Addr) {
    && (n in s.predecessor <==> n in s0.predecessor)
    && (n in s0.predecessor ==> s.predecessor[n] == s0.predecessor[n])
  }

  /** Relaxation so far has only lowered distances of unsettled routers,
      through links of `c`, and left every other predecessor alone. */
  ghost predicate RelaxedValues(g: Graph, s0: Search, c: Addr, s: Search)
    requires c in s0.distance
  {
    && s.closedSet == s0.closedSet
    && s.distance.Keys == s0.distance.Keys
    && s0.openSet <= s.openSet <= g.Keys
    && c in s.distance && s.distance[c] == s0.distance[c]
    && (forall n :: n in s0.distance && s.distance[n] != s0.distance[n] ==> Lowered(g, s0, c, s, n))
    && (forall n :: n in s0.distance && s.distance[n] == s0.distance[n] ==> SamePredecessor(s0, s, n))
    && (forall n :: n !in s0.distance ==> SamePredecessor(s0, s, n))
  }

  /** A router joins the frontier only when its distance was lowered, or
      when it is `c` itself, reached again over a link to itself. */
  ghost predicate Opened(g: Graph, s0: Search, c: Addr, s: Search) {
    forall n :: n in s.openSet && n !in s0.openSet ==>
      n !in s0.closedSet && n in s.distance && n in s0.distance &&
      (n == c ==> HasRelaxedSelfLink(g, c)) &&
      (n != c ==> s.distance[n] < s0.distance[n])
  }

  /** The search after relaxing the first `j` links of `c`, relative to `s0`. */
  ghost predicate RelaxedPrefix(g: Graph, s0: Search, c: Addr, s: Search, j: int)
    requires c in s0.distance
  {
    && RelaxedValues(g, s0, c, s)
    && Opened(g, s0, c, s)
    && EdgesRelaxedFrom(g, s, c, j)
    && (c in s0.closedSet ==> s == s0)
  }

  /** One call of RelaxStep extends the relaxed prefix by one link. */
  lemma RelaxStepKeeps(g: Graph, source: Addr, s0: Search, c: Addr, s: Search, j: int)
    requires ReadyToRelax(g, source, s0, c)
    requires 0 <= j < |g[c]| && RelaxedPrefix(g, s0, c, s, j)
    ensures Relaxable(g[c][j]) && g[c][j].linkID !in s.closedSet ==>
              c in s.distance && g[c][j].linkID in s.distance
    ensures RelaxedPrefix(g, s0, c, RelaxStep(s, c, g[c][j]), j + 1)
  {
    var ld := g[c][j];
    var t := ld.linkID;
    if !Relaxable(ld) {
      assert RelaxStep(s, c, ld) == s;
    } else if t in s.closedSet {
      SettledTargetStep(g, source, s0, c, s, j);
    } else if c in s0.closedSet {
      ReextractedStep(g, source, s0, c, s, j);
    } else {
      OpenTargetStep(g, source, s0, c, s, j);
    }
  }

  /** A link to a settled router changes nothing and was relaxed already. */
  lemma SettledTargetStep(g: Graph, source: Addr, s0: Search, c: Addr, s: Search, j: int)
    requires ReadyToRelax(g, source, s0, c)
    requires 0 <= j < |g[c]| && RelaxedPrefix(g, s0, c, s, j)
    requires Relaxable(g[c][j]) && g[c][j].linkID in s.closedSet
    ensures RelaxedPrefix(g, s0, c, RelaxStep(s, c, g[c][j]), j + 1)
  {
    var t := g[c][j].linkID;
    assert RelaxStep(s, c, g[c][j]) == s;
    if c !in s0.closedSet {
      assert s.distance[t] == s0.distance[t];
    }
  }

  /** Re-extracting a settled router: its links were relaxed when it was
      settled, so relaxing them again changes nothing. */
  lemma ReextractedStep(g: Graph, source: Addr, s0: Search, c: Addr, s: Search, j: int)
    requires ReadyToRelax(g, source, s0, c)
    requires 0 <= j < |g[c]| && RelaxedPrefix(g, s0, c, s, j)
    requires Relaxable(g[c][j]) && g[c][j].linkID !in s.closedSet && c in s0.closedSet
    ensures RelaxStep(s, c, g[c][j]) == s0
  {
    var ld := g[c][j];
    var dc := s0.distance[c];
    assert s == s0;
    assert ld.linkID in g;
    assert Wrap32(dc + ld.tosMetrics) == dc + ld.tosMetrics;
    assert ld.linkID in s0.openSet;
  }

  /** The main case: a real link of a newly settled router to an unsettled one. */
  lemma OpenTargetStep(g: Graph, source: Addr, s0: Search, c: Addr, s: Search, j: int)
    requires ReadyToRelax(g, source, s0, c)
    requires 0 <= j < |g[c]| && RelaxedPrefix(g, s0, c, s, j)
    requires Relaxable(g[c][j]) && g[c][j].linkID !in s.closedSet && c !in s0.closedSet
    ensures g[c][j].linkID in s.distance
    ensures RelaxedPrefix(g, s0, c, RelaxStep(s, c, g[c][j]), j + 1)
  {
    var ld := g[c][j];
    var t := ld.linkID;
    var dc := s0.distance[c];
    assert t in g;
    assert OpenLink(g, s0, c, s, j);
    if dc + ld.tosMetrics < s.distance[t] {
      LoweringStep(g, s0, c, s, j);
    } else {
      KeepingStep(g, s0, c, s, j);
    }
  }

  /** Link `j` of the newly settled router `c` is real, leads to an
      unsettled router of the database, and no sum along it can overflow. */
  ghost predicate OpenLink(g: Graph, s0: Search, c: Addr, s: Search, j: int) {
    && c in g && c in s0.distance && s0.distance.Keys == g.Keys
    && 0 <= j < |g[c]| && Relaxable(g[c][j])
    && g[c][j].linkID in g && g[c][j].linkID !in s.closedSet && c !in s0.closedSet
    && 0 <= g[c][j].tosMetrics <= SHORT_MAX
    && 0 <= s0.distance[c] && s0.distance[c] + SHORT_MAX < INT_MAX
  }

  /** The sum is not below the target's distance: only the frontier grows. */
  lemma KeepingStep(g: Graph, s0: Search, c: Addr, s: Search, j: int)
    requires OpenLink(g, s0, c, s, j) && RelaxedPrefix(g, s0, c, s, j)
    requires s0.distance[c] + g[c][j].tosMetrics >= s.distance[g[c][j].linkID]
    requires g[c][j].linkID in s.openSet || g[c][j].linkID == c
    ensures RelaxedPrefix(g, s0, c, RelaxStep(s, c, g[c][j]), j + 1)
  {
    var ld := g[c][j];
    assert Wrap32(s0.distance[c] + ld.tosMetrics) == s0.distance[c] + ld.tosMetrics;
    var r := s.(openSet := s.openSet + {ld.linkID});
    assert RelaxStep(s, c, ld) == r;
    KeepingPrefix(g, s0, c, s, j, r);
  }

  lemma KeepingPrefix(g: Graph, s0: Search, c: Addr, s: Search, j: int, r: Search)
    requires OpenLink(g, s0, c, s, j) && RelaxedPrefix(g, s0, c, s, j)
    requires s0.distance[c] + g[c][j].tosMetrics >= s.distance[g[c][j].linkID]
    requires g[c][j].linkID in s.openSet || g[c][j].linkID == c
    requires r == s.(openSet := s.openSet + {g[c][j].linkID})
    ensures RelaxedPrefix(g, s0, c, r, j + 1)
  {
    var t := g[c][j].linkID;
    forall n | n in s0.distance && r.distance[n] != s0.distance[n]
      ensures Lowered(g, s0, c, r, n)
    {
      assert Lowered(g, s0, c, s, n);
    }
    if t == c {
      assert HasRelaxedSelfLink(g, c) by {
        assert Relaxable(g[c][j]) && g[c][j].linkID == c;
      }
    }
    EdgesRelaxedGrow(g, s, r, c, j);
  }

  /** The sum is below the target's distance: distance and predecessor are overwritten. */
  lemma LoweringStep(g: Graph, s0: Search, c: Addr, s: Search, j: int)
    requires OpenLink(g, s0, c, s, j) && RelaxedPrefix(g, s0, c, s, j)
    requires s0.distance[c] + g[c][j].tosMetrics < s.distance[g[c][j].linkID]
    ensures RelaxedPrefix(g, s0, c, RelaxStep(s, c, g[c][j]), j + 1)
  {
    var ld := g[c][j];
    var t := ld.linkID;
    var dc := s0.distance[c];
    var w := ld.tosMetrics;
    assert Wrap32(dc + w) == dc + w;
    var r := Search(s.openSet + {t}, s.closedSet, s.distance[t := dc + w], s.predecessor[t := c]);
    assert RelaxStep(s, c, ld) == r;
    LoweringKeepsLowered(g, s0, c, s, j, r);
    LoweringKeepsRest(g, s0, c, s, j, r);
    LoweringKeepsOpened(g, s0, c, s, j, r);
    EdgesRelaxedGrow(g, s, r, c, j);
  }

  lemma LoweringKeepsLowered(g: Graph, s0: Search, c: Addr, s: Search, j: int, r: Search)
    requires OpenLink(g, s0, c, s, j) && RelaxedPrefix(g, s0, c, s, j)
    requires s0.distance[c] + g[c][j].tosMetrics < s.distance[g[c][j].linkID]
    requires r == Search(s.openSet + {g[c][j].linkID}, s.closedSet,
                         s.distance[g[c][j].linkID := s0.distance[c] + g[c][j].tosMetrics],
                         s.predecessor[g[c][j].linkID := c])
    ensures forall n :: n in s0.distance && r.distance[n] != s0.distance[n] ==> Lowered(g, s0, c, r, n)
  {
    var t := g[c][j].linkID;
    var dc := s0.distance[c];
    assert t != c;
    assert EdgeWith(g, c, t, r.distance[t] as int - dc) by {
      assert Relaxable(g[c][j]) && g[c][j].linkID == t && g[c][j].tosMetrics == r.distance[t] as int - dc;
    }
    assert Lowered(g, s0, c, r, t);
    forall n | n in s0.distance && r.distance[n] != s0.distance[n] && n != t
      ensures Lowered(g, s0, c, r, n)
    {
      assert Lowered(g, s0, c, s, n);
    }
  }

  lemma LoweringKeepsRest(g: Graph, s0: Search, c: Addr, s: Search, j: int, r: Search)
    requires OpenLink(g, s0, c, s, j) && RelaxedPrefix(g, s0, c, s, j)
    requires s0.distance[c] + g[c][j].tosMetrics < s.distance[g[c][j].linkID]
    requires r == Search(s.openSet + {g[c][j].linkID}, s.closedSet,
                         s.distance[g[c][j].linkID := s0.distance[c] + g[c][j].tosMetrics],
                         s.predecessor[g[c][j].linkID := c])
    ensures r.closedSet == s0.closedSet && r.distance.Keys == s0.distance.Keys
    ensures s0.openSet <= r.openSet <= g.Keys
    ensures c in r.distance && r.distance[c] == s0.distance[c]
    ensures forall n :: n in s0.distance && r.distance[n] == s0.distance[n] ==> SamePredecessor(s0, r, n)
    ensures forall n :: n !in s0.distance ==> SamePredecessor(s0, r, n)
  {
    assert g[c][j].linkID != c;
  }

  lemma LoweringKeepsOpened(g: Graph, s0: Search, c: Addr, s: Search, j: int, r: Search)
    requires OpenLink(g, s0, c, s, j) && RelaxedPrefix(g, s0, c, s, j)
    requires s0.distance[c] + g[c][j].tosMetrics < s.distance[g[c][j].linkID]
    requires r == Search(s.openSet + {g[c][j].linkID}, s.closedSet,
                         s.distance[g[c][j].linkID := s0.distance[c] + g[c][j].tosMetrics],
                         s.predecessor[g[c][j].linkID := c])
    ensures Opened(g, s0, c, r)
  {
    assert g[c][j].linkID != c;
  }

  /** Lowering distances and growing the frontier keeps earlier links
      relaxed; with link `j` relaxed too, the prefix grows by one. */
  lemma EdgesRelaxedGrow(g: Graph, s: Search, r: Search, c: Addr, j: int)
    requires EdgesRelaxedFrom(g, s, c, j) && 0 <= j < |g[c]|
    requires r.closedSet == s.closedSet && s.openSet <= r.openSet && r.distance.Keys == s.distance.Keys
    requires forall n :: n in s.distance ==> r.distance[n] <= s.distance[n]
    requires c in r.distance && r.distance[c] == s.distance[c]
    requires Relaxable(g[c][j]) ==>
               g[c][j].linkID in r.openSet + r.closedSet && g[c][j].linkID in r.distance &&
               r.distance[g[c][j].linkID] <= r.distance[c] + g[c][j].tosMetrics
    ensures EdgesRelaxedFrom(g, r, c, j + 1)
  {
  }



  /** Relaxes every link `c` advertises, in advertisement order (the inner
      loop of getShortestPath). */
  method RelaxLinks(g: Graph, ghost source: Addr, s0: Search, c: Addr) returns (s: Search)
    requires ReadyToRelax(g, source, s0, c)
    ensures RelaxedPrefix(g, s0, c, s, |g[c]|)
  {
    s := s0;
    var links := g[c];
    for j := 0 to |links|
      invariant RelaxedPrefix(g, s0, c, s, j)
    {
      RelaxStepKeeps(g, source, s0, c, s, j);
      s := RelaxStep(s, c, links[j]);
    }
  }

  // ---------------------------------------------------------------------
  // One iteration of the outer loop keeps the search invariant.

  lemma SubsetCardinality<T>(a: set<T>, b: set<T>)
    requires a <= b
    ensures |a| <= |b|
  {
    assert b == a + (b - a);
  }

  /** The router extracted from the frontier is ready to have its links relaxed. */
  lemma ReadyAtExtraction(g: Graph, source: Addr, before: Search, c: Addr)
    requires WellFormed(g, source)
    requires Shape(g, source, before)
    requires Finite(g, before, before.openSet + before.closedSet)
    requires Bounded(before, before.openSet + before.closedSet, |before.closedSet|)
    requires ClosedRelaxed(g, before)
    requires SettledFirst(before)
    requires c in before.openSet
    requires forall y :: y in before.openSet ==> before.distance[c] <= before.distance[y]
    ensures ReadyToRelax(g, source, before.(openSet := before.openSet - {c}), c)
  {
    var s0 := before.(openSet := before.openSet - {c});
    SubsetCardinality(before.closedSet, g.Keys);
    assert |before.closedSet| * SHORT_MAX <= 0xffff * SHORT_MAX;
    assert s0.openSet + s0.closedSet + {c} == before.openSet + before.closedSet;
    if c in before.closedSet {
      assert EdgesRelaxedFrom(g, before, c, |g[c]|);
      assert s0.openSet + s0.closedSet == before.openSet + before.closedSet;
    }
  }

  // The lemmas below take the iteration that settles `c` for the first time
  // from the search `before` to `s1` (the search once the links of `c` are
  // relaxed, before `c` joins the settled set).

  lemma SettlingShape(g: Graph, source: Addr, before: Search, c: Addr, s1: Search, after: Search)
    requires Shape(g, source, before)
    requires Bounded(before, before.openSet + before.closedSet, |before.closedSet|)
    requires c in before.openSet && c !in before.closedSet
    requires c in g && c in before.distance
    requires RelaxedValues(g, before.(openSet := before.openSet - {c}), c, s1)
    requires Opened(g, before.(openSet := before.openSet - {c}), c, s1)
    requires after == s1.(closedSet := s1.closedSet + {c})
    ensures Shape(g, source, after)
  {
    var s0 := before.(openSet := before.openSet - {c});
    assert 0 <= before.distance[c];
    SettlingSourceKept(g, source, before, c, s0, s1, after);
    SettlingPredecessorKeys(g, source, before, c, s0, s1, after);
  }

  lemma SettlingSourceKept(g: Graph, source: Addr, before: Search, c: Addr, s0: Search, s1: Search, after: Search)
    requires Shape(g, source, before)
    requires c in before.openSet && c in g && c in before.distance && 0 <= before.distance[c]
    requires s0 == before.(openSet := before.openSet - {c})
    requires RelaxedValues(g, s0, c, s1)
    requires after == s1.(closedSet := s1.closedSet + {c})
    ensures after.openSet <= g.Keys && after.closedSet <= g.Keys && after.distance.Keys == g.Keys
    ensures source in after.openSet + after.closedSet
    ensures source in after.distance && after.distance[source] == 0
  {
    if source != c {
      assert source in s0.openSet + s0.closedSet;
    }
  }

  lemma SettlingPredecessorKeys(g: Graph, source: Addr, before: Search, c: Addr, s0: Search, s1: Search, after: Search)
    requires Shape(g, source, before)
    requires c in before.openSet && c in g && c in before.distance && 0 <= before.distance[c]
    requires s0 == before.(openSet := before.openSet - {c})
    requires RelaxedValues(g, s0, c, s1)
    requires Opened(g, s0, c, s1)
    requires after == s1.(closedSet := s1.closedSet + {c})
    ensures after.predecessor.Keys == (after.openSet + after.closedSet) - {source}
  {
    forall n
      ensures n in s1.predecessor <==> n in (s1.openSet + s1.closedSet + {c}) - {source}
    {
      SettlingPredKey(g, source, before, c, s0, s1, n);
    }
    assert after.openSet + after.closedSet == s1.openSet + s1.closedSet + {c};
  }

  /** A router has a predecessor after settling `c` exactly when it is
      reached and is not the source. */
  lemma SettlingPredKey(g: Graph, source: Addr, before: Search, c: Addr, s0: Search, s1: Search, n: Addr)
    requires Shape(g, source, before)
    requires c in before.openSet && c in g && c in before.distance && 0 <= before.distance[c]
    requires s0 == before.(openSet := before.openSet - {c})
    requires RelaxedValues(g, s0, c, s1)
    requires Opened(g, s0, c, s1)
    ensures n in s1.predecessor <==> n in (s1.openSet + s1.closedSet + {c}) - {source}
  {
    if n in s0.distance && s1.distance[n] != s0.distance[n] {
      assert Lowered(g, s0, c, s1, n);
    } else {
      assert SamePredecessor(s0, s1, n);
    }
  }

  lemma SettlingFinite(g: Graph, source: Addr, before: Search, c: Addr, s1: Search, after: Search)
    requires Shape(g, source, before)
    requires Finite(g, before, before.openSet + before.closedSet)
    requires Bounded(before, before.openSet + before.closedSet, |before.closedSet|)
    requires c in before.openSet && c !in before.closedSet
    requires c in g && c in before.distance
    requires RelaxedValues(g, before.(openSet := before.openSet - {c}), c, s1)
    requires Opened(g, before.(openSet := before.openSet - {c}), c, s1)
    requires after == s1.(closedSet := s1.closedSet + {c})
    ensures Finite(g, after, after.openSet + after.closedSet)
    ensures Bounded(after, after.openSet + after.closedSet, |after.closedSet|)
  {
    var s0 := before.(openSet := before.openSet - {c});
    assert after.openSet + after.closedSet == s1.openSet + s1.closedSet + {c};
    assert |after.closedSet| == |before.closedSet| + 1;
    assert before.distance[c] <= |before.closedSet| * SHORT_MAX;
    forall n | n in g && n in s1.distance
      ensures n in s1.openSet + s1.closedSet + {c} <==> s1.distance[n] < INT_MAX
      ensures n in s1.openSet + s1.closedSet + {c} ==> 0 <= s1.distance[n] <= (|before.closedSet| + 1) * SHORT_MAX
    {
      if s1.distance[n] != s0.distance[n] {
        assert Lowered(g, s0, c, s1, n);
      }
    }
  }

  lemma SettlingPredEdges(g: Graph, source: Addr, before: Search, c: Addr, s1: Search, after: Search)
    requires PredEdges(g, before)
    requires PredSettled(before)
    requires c in before.openSet && c !in before.closedSet
    requires c in g && c in before.distance
    requires RelaxedValues(g, before.(openSet := before.openSet - {c}), c, s1)
    requires after == s1.(closedSet := s1.closedSet + {c})
    ensures PredEdges(g, after)
  {
    var s0 := before.(openSet := before.openSet - {c});
    forall t | t in s1.predecessor
      ensures t in s1.distance && s1.predecessor[t] in s1.distance
      ensures EdgeWith(g, s1.predecessor[t], t, s1.distance[t] as int - s1.distance[s1.predecessor[t]])
    {
      if t in s0.distance && s1.distance[t] != s0.distance[t] {
        assert Lowered(g, s0, c, s1, t);
      } else {
        assert SamePredecessor(s0, s1, t);
        var p := s0.predecessor[t];
        assert p in before.closedSet;
      }
    }
  }

  lemma SettlingPredSettled(g: Graph, source: Addr, before: Search, c: Addr, s1: Search, after: Search)
    requires PredSettled(before)
    requires c in before.openSet && c !in before.closedSet
    requires c in g && c in before.distance
    requires RelaxedValues(g, before.(openSet := before.openSet - {c}), c, s1)
    requires after == s1.(closedSet := s1.closedSet + {c})
    ensures PredSettled(after)
    ensures forall t :: t in s1.predecessor && t in before.closedSet + {c} ==>
              t in before.predecessor && s1.predecessor[t] == before.predecessor[t]
  {
    var s0 := before.(openSet := before.openSet - {c});
    forall t | t in s1.predecessor
      ensures s1.predecessor[t] in before.closedSet + {c}
      ensures t in before.closedSet + {c} ==> t in before.predecessor && s1.predecessor[t] == before.predecessor[t]
    {
      if t in s0.distance && s1.distance[t] != s0.distance[t] {
        assert Lowered(g, s0, c, s1, t);
      } else {
        assert SamePredecessor(s0, s1, t);
      }
    }
  }

  lemma SettlingRanked(g: Graph, source: Addr, before: Search, c: Addr, s1: Search, after: Search, rank: map<Addr, nat>)
    requires PredSettled(before)
    requires Ranked(before, rank)
    requires c in before.openSet && c !in before.closedSet
    requires s1.closedSet == before.closedSet
    requires forall t :: t in s1.predecessor && t in before.closedSet + {c} ==>
               t in before.predecessor && s1.predecessor[t] == before.predecessor[t]
    requires after == s1.(closedSet := s1.closedSet + {c})
    ensures Ranked(after, rank[c := |before.closedSet|])
  {
    var rank' := rank[c := |before.closedSet|];
    assert |after.closedSet| == |before.closedSet| + 1;
    forall t | t in after.predecessor && t in rank' && after.predecessor[t] in rank'
      ensures rank'[after.predecessor[t]] < rank'[t]
    {
      var p := before.predecessor[t];
      assert p in before.closedSet && p != c;
    }
  }

  lemma SettlingRelaxed(g: Graph, source: Addr, before: Search, c: Addr, s1: Search, after: Search)
    requires Shape(g, source, before)
    requires ClosedRelaxed(g, before)
    requires SettledFirst(before)
    requires c in before.openSet && c !in before.closedSet
    requires forall y :: y in before.openSet ==> before.distance[c] <= before.distance[y]
    requires c in g && c in before.distance
    requires RelaxedValues(g, before.(openSet := before.openSet - {c}), c, s1)
    requires Opened(g, before.(openSet := before.openSet - {c}), c, s1)
    requires EdgesRelaxedFrom(g, s1, c, |g[c]|)
    requires after == s1.(closedSet := s1.closedSet + {c})
    ensures ClosedRelaxed(g, after)
    ensures SettledFirst(after)
  {
    var s0 := before.(openSet := before.openSet - {c});
    forall x | x in after.closedSet && x in g
      ensures EdgesRelaxedFrom(g, after, x, |g[x]|)
    {
      if x != c {
        assert EdgesRelaxedFrom(g, before, x, |g[x]|);
        forall i | 0 <= i < |g[x]| && Relaxable(g[x][i])
          ensures g[x][i].linkID in after.openSet + after.closedSet
          ensures after.distance[g[x][i].linkID] <= after.distance[x] + g[x][i].tosMetrics
        {
          var t := g[x][i].linkID;
          if s1.distance[t] != s0.distance[t] {
            assert Lowered(g, s0, c, s1, t);
          }
        }
      }
    }
    forall x, y | x in after.closedSet && y in after.openSet && y !in after.closedSet && x in after.distance && y in after.distance
      ensures after.distance[x] <= after.distance[y]
    {
      if s1.distance[y] != s0.distance[y] {
        assert Lowered(g, s0, c, s1, y);
      }
    }
  }

  lemma SettlingReextracted(g: Graph, source: Addr, before: Search, c: Addr, s1: Search, after: Search, reext: set<Addr>, iterations: nat)
    requires Shape(g, source, before)
    requires Reextracted(g, before, reext, iterations)
    requires c in before.openSet && c !in before.closedSet
    requires c in g && c in before.distance
    requires RelaxedValues(g, before.(openSet := before.openSet - {c}), c, s1)
    requires Opened(g, before.(openSet := before.openSet - {c}), c, s1)
    requires after == s1.(closedSet := s1.closedSet + {c})
    ensures Reextracted(g, after, reext, iterations + 1)
  {
    assert |after.closedSet| == |before.closedSet| + 1;
  }

  /** Extracting a router that is settled already changes nothing but the
      frontier, from which it leaves for good. */
  lemma ReextractionKeepsShape(g: Graph, source: Addr, before: Search, c: Addr, after: Search, rank: map<Addr, nat>)
    requires Shape(g, source, before)
    requires Finite(g, before, before.openSet + before.closedSet)
    requires Bounded(before, before.openSet + before.closedSet, |before.closedSet|)
    requires PredEdges(g, before) && PredSettled(before) && Ranked(before, rank)
    requires c in before.openSet && c in before.closedSet
    requires after == before.(openSet := before.openSet - {c})
    ensures Shape(g, source, after)
    ensures Finite(g, after, after.openSet + after.closedSet)
    ensures Bounded(after, after.openSet + after.closedSet, |after.closedSet|)
    ensures PredEdges(g, after) && PredSettled(after) && Ranked(after, rank)
  {
    assert after.openSet + after.closedSet == before.openSet + before.closedSet;
  }

  lemma ReextractionKeepsOrder(g: Graph, source: Addr, before: Search, c: Addr, after: Search,
                               reext: set<Addr>, iterations: nat)
    requires Shape(g, source, before)
    requires ClosedRelaxed(g, before) && SettledFirst(before)
    requires Reextracted(g, before, reext, iterations)
    requires c in before.openSet && c in before.closedSet
    requires after == before.(openSet := before.openSet - {c})
    ensures ClosedRelaxed(g, after) && SettledFirst(after)
    ensures Reextracted(g, after, reext + {c}, iterations + 1)
  {
    assert after.openSet + after.closedSet == before.openSet + before.closedSet;
    assert c in SelfLinked(g);
    assert |reext + {c}| == |reext| + 1;
  }


  /** Settling `c` for the first time keeps every part of the search
      invariant, with `c` ranked last, and settles one more router. */
  lemma SettlingKeepsInv(g: Graph, source: Addr, before: Search, c: Addr, s1: Search, after: Search,
                         rank: map<Addr, nat>, reext: set<Addr>, iterations: nat)
    requires WellFormed(g, source)
    requires Shape(g, source, before)
    requires Finite(g, before, before.openSet + before.closedSet)
    requires Bounded(before, before.openSet + before.closedSet, |before.closedSet|)
    requires PredEdges(g, before) && PredSettled(before) && Ranked(before, rank)
    requires ClosedRelaxed(g, before) && SettledFirst(before)
    requires Reextracted(g, before, reext, iterations)
    requires c in before.openSet && c !in before.closedSet
    requires forall y :: y in before.openSet ==> before.distance[c] <= before.distance[y]
    requires RelaxedPrefix(g, before.(openSet := before.openSet - {c}), c, s1, |g[c]|)
    requires after == s1.(closedSet := s1.closedSet + {c})
    ensures Shape(g, source, after)
    ensures Finite(g, after, after.openSet + after.closedSet)
    ensures Bounded(after, after.openSet + after.closedSet, |after.closedSet|)
    ensures PredEdges(g, after) && PredSettled(after)
    ensures Ranked(after, rank[c := |before.closedSet|])
    ensures ClosedRelaxed(g, after)
    ensures SettledFirst(after)
    ensures Reextracted(g, after, reext, iterations + 1)
  {
    SettlingShape(g, source, before, c, s1, after);
    SettlingFinite(g, source, before, c, s1, after);
    SettlingPredEdges(g, source, before, c, s1, after);
    SettlingPredSettled(g, source, before, c, s1, after);
    SettlingRanked(g, source, before, c, s1, after, rank);
    SettlingRelaxed(g, source, before, c, s1, after);
    SettlingReextracted(g, source, before, c, s1, after, reext, iterations);
  }

  /** Re-extracting a settled router changes nothing but the frontier.
      Its links were relaxed when it was settled, so relaxing them again
      leaves the search as it was (RelaxLinks's relaxed prefix), and
      settling it again adds nothing to the closed set. The lemma only
      exposes the last clause of RelaxedPrefix, which RelaxLinks keeps. */
  lemma ReextractionIsNoOp(g: Graph, source: Addr, s0: Search, c: Addr, s1: Search, after: Search)
    requires ReadyToRelax(g, source, s0, c) && c in s0.closedSet
    requires RelaxedPrefix(g, s0, c, s1, |g[c]|)
    requires after == s1.(closedSet := s1.closedSet + {c})
    ensures after == s0
  {
    assert s1 == s0;
    assert s1.closedSet + {c} == s0.closedSet;
  }

  lemma RemovalShrinks(a: set<Addr>, c: Addr)
    requires c in a
    ensures |a - {c}| < |a|
  {
    assert a == (a - {c}) + {c};
  }

  lemma SettlingProgress(g: Graph, closed: set<Addr>, c: Addr)
    requires closed <= g.Keys && c in g && c !in closed
    ensures |g.Keys - (closed + {c})| < |g.Keys - closed|
  {
    assert g.Keys - closed == (g.Keys - (closed + {c})) + {c};
  }

  // ---------------------------------------------------------------------
  // When the frontier is empty.

  /** Every path from the source ends at a settled router whose distance is
      at most the path's weight. */
  lemma {:induction false} RouteLowerBound(g: Graph, source: Addr, s: Search, p: seq<Hop>)
    requires Shape(g, source, s) && ClosedRelaxed(g, s) && s.openSet == {}
    requires |p| > 0 && p[0].address == source && IsWeightedPath(g, p)
    ensures p[|p| - 1].address in s.closedSet
    ensures s.distance[p[|p| - 1].address] <= Weight(p)
    decreases |p|
  {
    if |p| > 1 {
      var q := p[..|p| - 1];
      forall k | 1 <= k < |q|
        ensures EdgeWith(g, q[k - 1].address, q[k].address, q[k].weight)
      {
        assert q[k - 1] == p[k - 1] && q[k] == p[k];
      }
      RouteLowerBound(g, source, s, q);
      var u := p[|p| - 2].address;
      assert q[|q| - 1].address == u;
      assert EdgeWith(g, u, p[|p| - 1].address, p[|p| - 1].weight);
      var j :| 0 <= j < |g[u]| && Relaxable(g[u][j]) && g[u][j].linkID == p[|p| - 1].address && g[u][j].tosMetrics == p[|p| - 1].weight;
      assert EdgesRelaxedFrom(g, s, u, |g[u]|);
    }
  }

  /** Java's `Map.get`: absent keys map to null. */
  function Lookup(m: map<Addr, Addr>, k: Addr): (r: Option<Addr>)
    ensures r.Some? <==> k in m
    ensures r.Some? ==> r.value == m[k]
  {
    if k in m then Some(m[k]) else None
  }

  /** Collections.reverse. */
  function Reverse<T>(s: seq<T>): (r: seq<T>)
    ensures |r| == |s|
    ensures forall k :: 0 <= k < |s| ==> r[k] == s[|s| - 1 - k]
  {
    if s == [] then [] else Reverse(s[1..]) + [s[0]]
  }

  /** Decreases along the predecessor chain: settled routers by rank,
      an unsettled one above all ranks, the end of the chain lowest. */
  function ChainMeasure(rank: map<Addr, nat>, bound: nat, current: Option<Addr>): nat {
    match current
    case None => 0
    case Some(x) => if x in rank then rank[x] + 1 else bound + 1
  }

  // ---------------------------------------------------------------------
  // The search.

  /** Every router of the database starts at Integer.MAX_VALUE, standing for infinity. */
  method InitialDistances(g: Graph) returns (distance: map<Addr, Int32>)
    ensures distance.Keys == g.Keys
    ensures forall n :: n in distance ==> distance[n] == INT_MAX
  {
    distance := map[];
    var unset := g.Keys;
    while unset != {}
      invariant unset <= g.Keys && distance.Keys == g.Keys - unset
      invariant forall n :: n in distance ==> distance[n] == INT_MAX
      decreases unset
    {
      var linkID :| linkID in unset;
      distance := distance[linkID := INT_MAX];
      unset := unset - {linkID};
    }
  }

  /** The search before its first iteration satisfies the invariant. */
  lemma InitialInv(g: Graph, source: Addr, s: Search)
    requires source in g
    requires s.openSet == {source} && s.closedSet == {} && s.predecessor == map[]
    requires s.distance.Keys == g.Keys && s.distance[source] == 0
    requires forall n :: n in s.distance && n != source ==> s.distance[n] == INT_MAX
    ensures Shape(g, source, s)
    ensures Finite(g, s, s.openSet + s.closedSet)
    ensures Bounded(s, s.openSet + s.closedSet, |s.closedSet|)
    ensures PredEdges(g, s) && PredSettled(s) && Ranked(s, map[])
    ensures ClosedRelaxed(g, s) && SettledFirst(s)
    ensures Reextracted(g, s, {}, 0)
  {
  }

  /** One iteration of the outer loop: extract a closest router of the
      frontier, relax its links, settle it. */
  method SearchStep(g: Graph, ghost source: Addr, s: Search,
                    ghost rank: map<Addr, nat>, ghost reext: set<Addr>, ghost iterations: nat)
    returns (next: Search, ghost rank': map<Addr, nat>, ghost reext': set<Addr>)
    requires WellFormed(g, source)
    requires s.openSet != {}
    requires Shape(g, source, s)
    requires Finite(g, s, s.openSet + s.closedSet)
    requires Bounded(s, s.openSet + s.closedSet, |s.closedSet|)
    requires PredEdges(g, s) && PredSettled(s) && Ranked(s, rank)
    requires ClosedRelaxed(g, s) && SettledFirst(s)
    requires Reextracted(g, s, reext, iterations)
    ensures Shape(g, source, next)
    ensures Finite(g, next, next.openSet + next.closedSet)
    ensures Bounded(next, next.openSet + next.closedSet, |next.closedSet|)
    ensures PredEdges(g, next) && PredSettled(next) && Ranked(next, rank')
    ensures ClosedRelaxed(g, next) && SettledFirst(next)
    ensures Reextracted(g, next, reext', iterations + 1)
    ensures |g.Keys - next.closedSet| < |g.Keys - s.closedSet| ||
            (next.closedSet == s.closedSet && |next.openSet| < |s.openSet|)
  {
    var minimum := GetMinimum(s.openSet, s.distance);
    var currentNode := minimum.value;
    next := s.(openSet := s.openSet - {currentNode});
    ReadyAtExtraction(g, source, s, currentNode);
    ghost var s0 := next;
    next := RelaxLinks(g, source, next, currentNode);
    ghost var s1 := next;
    next := next.(closedSet := next.closedSet + {currentNode});
    if currentNode in s.closedSet {
      ReextractionIsNoOp(g, source, s0, currentNode, s1, next);
      RemovalShrinks(s.openSet, currentNode);
      ReextractionKeepsShape(g, source, s, currentNode, next, rank);
      ReextractionKeepsOrder(g, source, s, currentNode, next, reext, iterations);
      rank', reext' := rank, reext + {currentNode};
    } else {
      SettlingKeepsInv(g, source, s, currentNode, s1, next, rank, reext, iterations);
      SettlingProgress(g, s.closedSet, currentNode);
      rank', reext' := rank[currentNode := |s.closedSet|], reext;
    }
  }

  /** getShortestPath: Dijkstra's search from `source` over the snapshot
      `g`, then the walk back along predecessors from `destination` and the
      weight of each hop as the difference of distances. When the
      destination cannot be reached the result is the destination alone. */
  method FindShortestPath(g: Graph, source: Addr, destination: Addr)
    returns (path: seq<Hop>, ghost iterations: nat)
    requires WellFormed(g, source)
    ensures |path| > 0 && path[0].weight == 0 && path[|path| - 1].address == destination
    ensures IsWeightedPath(g, path)
    ensures Reachable(g, source, destination) <==> IsRoute(g, source, destination, path)
    ensures !Reachable(g, source, destination) ==> path == [Hop(destination, 0)]
    ensures forall p :: IsRoute(g, source, destination, p) ==> Weight(path) <= Weight(p)
    ensures iterations <= |g| + |SelfLinked(g)|
  {
    var distance := InitialDistances(g);
    var s := Search({source}, {}, distance[source := 0], map[]);
    ghost var rank: map<Addr, nat> := map[];
    ghost var reext: set<Addr> := {};
    iterations := 0;
    InitialInv(g, source, s);
    while s.openSet != {}
      invariant Shape(g, source, s)
      invariant Finite(g, s, s.openSet + s.closedSet)
      invariant Bounded(s, s.openSet + s.closedSet, |s.closedSet|)
      invariant PredEdges(g, s) && PredSettled(s) && Ranked(s, rank)
      invariant ClosedRelaxed(g, s) && SettledFirst(s)
      invariant Reextracted(g, s, reext, iterations)
      decreases |g.Keys - s.closedSet|, |s.openSet|
    {
      s, rank, reext := SearchStep(g, source, s, rank, reext, iterations);
      iterations := iterations + 1;
    }
    path := RebuildPath(g, source, destination, s, rank);
    SearchBound(g, s, reext, iterations);
  }

  /** The number of extractions is at most one per router plus one more per
      router that advertises a real link to itself. */
  lemma SearchBound(g: Graph, s: Search, reext: set<Addr>, iterations: nat)
    requires s.closedSet <= g.Keys && Reextracted(g, s, reext, iterations)
    ensures iterations <= |g| + |SelfLinked(g)|
  {
    SubsetCardinality(s.closedSet, g.Keys);
    SubsetCardinality(reext, SelfLinked(g));
  }

  /** `b` is the predecessor of `a`. */
  ghost predicate Follows(pred: map<Addr, Addr>, a: Addr, b: Addr) {
    a in pred && pred[a] == b
  }

  /** Walks the predecessors back from `destination` until one is missing. */
  method WalkBack(s: Search, destination: Addr, ghost rank: map<Addr, nat>) returns (trail: seq<Addr>)
    requires PredSettled(s) && Ranked(s, rank) && s.predecessor.Keys <= s.closedSet
    ensures |trail| > 0 && trail[0] == destination && trail[|trail| - 1] !in s.predecessor
    ensures forall k :: 1 <= k < |trail| ==> Follows(s.predecessor, trail[k - 1], trail[k])
  {
    trail := [];
    var current: Option<Addr> := Some(destination);
    while current.Some?
      invariant |trail| == 0 ==> current == Some(destination)
      invariant |trail| > 0 ==> trail[0] == destination && current == Lookup(s.predecessor, trail[|trail| - 1])
      invariant forall k :: 1 <= k < |trail| ==> Follows(s.predecessor, trail[k - 1], trail[k])
      decreases ChainMeasure(rank, |s.closedSet|, current)
    {
      trail := trail + [current.value];
      current := Lookup(s.predecessor, current.value);
    }
  }

  /** Reversing the walk back gives a chain from its last router forwards. */
  lemma ReversedWalk(pred: map<Addr, Addr>, trail: seq<Addr>, nodes: seq<Addr>)
    requires forall k :: 1 <= k < |trail| ==> Follows(pred, trail[k - 1], trail[k])
    requires nodes == Reverse(trail)
    ensures forall k :: 1 <= k < |nodes| ==> Follows(pred, nodes[k], nodes[k - 1])
  {
    forall k | 1 <= k < |nodes|
      ensures Follows(pred, nodes[k], nodes[k - 1])
    {
      var i := |nodes| - k;
      assert Follows(pred, trail[i - 1], trail[i]);
    }
  }

  /** Gives each router of the chain the hop weight getShortestPath prints:
      nothing for the first, the distance itself for the second, and the
      difference of distances after that. */
  method HopWeights(g: Graph, ghost source: Addr, s: Search, nodes: seq<Addr>) returns (path: seq<Hop>)
    requires |nodes| > 0 && PredEdges(g, s)
    requires forall k :: 1 <= k < |nodes| ==> Follows(s.predecessor, nodes[k], nodes[k - 1])
    requires |nodes| > 1 ==> nodes[0] == source && source in s.distance && s.distance[source] == 0
    ensures |path| == |nodes| && path[0].weight == 0
    ensures forall i :: 0 <= i < |nodes| ==> path[i].address == nodes[i]
    ensures IsWeightedPath(g, path)
    ensures |nodes| > 1 ==> nodes[|nodes| - 1] in s.distance && Weight(path) == s.distance[nodes[|nodes| - 1]]
  {
    path := [];
    for k := 0 to |nodes|
      invariant |path| == k
      invariant forall i :: 0 <= i < k ==> path[i].address == nodes[i]
      invariant k > 0 ==> path[0].weight == 0 && IsWeightedPath(g, path)
      invariant k > 1 ==> nodes[k - 1] in s.distance && Weight(path) == s.distance[nodes[k - 1]]
    {
      if k == 0 {
        path := path + [Hop(nodes[k], 0)];
      } else {
        var nextNode := nodes[k];
        assert Follows(s.predecessor, nodes[k], nodes[k - 1]);
        // Both distances are reached ones, in 0..Integer.MAX_VALUE - 1, so
        // the Java int subtraction cannot wrap.
        var edgeWeight: int;
        if k == 1 {
          edgeWeight := s.distance[nextNode];
        } else {
          edgeWeight := s.distance[nextNode] - s.distance[nodes[k - 1]];
        }
        ExtendPath(g, path, Hop(nextNode, edgeWeight));
        path := path + [Hop(nextNode, edgeWeight)];
      }
    }
  }

  /** The end of getShortestPath: walks the predecessors back from the
      destination (reaching the source, or stopping at once when the
      destination was never reached), reverses the walk, and weighs the hops. */
  method RebuildPath(g: Graph, ghost source: Addr, destination: Addr, s: Search, ghost rank: map<Addr, nat>)
    returns (path: seq<Hop>)
    requires Shape(g, source, s) && s.openSet == {}
    requires Bounded(s, s.openSet + s.closedSet, |s.closedSet|)
    requires PredEdges(g, s) && PredSettled(s) && Ranked(s, rank)
    requires ClosedRelaxed(g, s)
    ensures |path| > 0 && path[0].weight == 0 && path[|path| - 1].address == destination
    ensures IsWeightedPath(g, path)
    ensures Reachable(g, source, destination) <==> IsRoute(g, source, destination, path)
    ensures !Reachable(g, source, destination) ==> path == [Hop(destination, 0)]
    ensures forall p :: IsRoute(g, source, destination, p) ==> Weight(path) <= Weight(p)
  {
    var shortestPath := WalkBack(s, destination, rank);
    var nodes := Reverse(shortestPath);
    ReversedWalk(s.predecessor, shortestPath, nodes);
    if |nodes| > 1 {
      assert Follows(s.predecessor, nodes[1], nodes[0]);
      assert nodes[0] in s.closedSet && nodes[0] !in s.predecessor;
    }
    path := HopWeights(g, source, s, nodes);
    RouteFacts(g, source, destination, s, nodes, path);
  }

  /** How the rebuilt path relates to every route of the database. */
  lemma RouteFacts(g: Graph, source: Addr, destination: Addr, s: Search, nodes: seq<Addr>, path: seq<Hop>)
    requires Shape(g, source, s) && s.openSet == {}
    requires Bounded(s, s.openSet + s.closedSet, |s.closedSet|)
    requires ClosedRelaxed(g, s)
    requires |nodes| > 0 && nodes[|nodes| - 1] == destination && nodes[0] !in s.predecessor
    requires |nodes| > 1 ==> nodes[0] == source
    requires |path| == |nodes| && path[0].weight == 0 && IsWeightedPath(g, path)
    requires forall i :: 0 <= i < |nodes| ==> path[i].address == nodes[i]
    requires |nodes| > 1 ==> destination in s.distance && Weight(path) == s.distance[destination]
    ensures Reachable(g, source, destination) <==> IsRoute(g, source, destination, path)
    ensures !Reachable(g, source, destination) ==> path == [Hop(destination, 0)]
    ensures forall p :: IsRoute(g, source, destination, p) ==> Weight(path) <= Weight(p)
  {
    forall p | IsRoute(g, source, destination, p)
      ensures destination in s.closedSet && 0 <= s.distance[destination] <= Weight(p)
    {
      RouteLowerBound(g, source, s, p);
    }
    if |nodes| == 1 {
      assert path == [Hop(destination, 0)];
    } else {
      assert IsRoute(g, source, destination, path);
    }
  }
}
