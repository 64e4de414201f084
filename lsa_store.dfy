/** The link-state database as a value (originator -> LSA), and the edits
    the message handlers make to it: accepting a received LSA, and the two
    modes of updateLSA on the router's own LSA. */
module LsaStore {
  import opened JavaInt
  import opened Message
  import opened Wrappers

  type Store = map<string, LsaValue>

  /** Every LSA is filed under its own originator. */
  predicate Keyed(store: Store) {
    forall k :: k in store ==> store[k].linkStateID == k
  }

  /** The entry a router makes about itself when its database is created:
      the lowest sequence number and one sentinel description of itself. */
  function SelfEntry(simIP: string): LsaValue {
    LsaValue(simIP, INT_MIN, [LinkDescription(simIP, SELF_PORT, 0)])
  }

  // ---------------------------------------------------------------------
  // Link-state updates from neighbours.

  /** A received LSA wins when its originator is unknown or its sequence
      number is strictly greater than the stored one. */
  predicate IsNewer(store: Store, received: LsaValue) {
    received.linkStateID !in store || received.lsaSeqNumber > store[received.linkStateID].lsaSeqNumber
  }

  function Accept(store: Store, received: LsaValue): Store {
    if IsNewer(store, received) then store[received.linkStateID := received] else store
  }

  /** The LSAs of one packet, accepted one after the other; also the
      accepted ones, in order, which are the ones flooded on. */
  function AcceptAll(store: Store, lsas: seq<LsaValue>): (Store, seq<LsaValue>)
    decreases |lsas|
  {
    if |lsas| == 0 then (store, [])
    else
      var (before, flooded) := AcceptAll(store, lsas[..|lsas| - 1]);
      var last := lsas[|lsas| - 1];
      (Accept(before, last), if IsNewer(before, last) then flooded + [last] else flooded)
  }

  /** Accepting the LSAs of a prefix and then the next one. */
  lemma AcceptAllStep(store: Store, lsas: seq<LsaValue>, k: nat)
    requires k < |lsas|
    ensures AcceptAll(store, lsas[..k + 1]).0 == Accept(AcceptAll(store, lsas[..k]).0, lsas[k])
    ensures AcceptAll(store, lsas[..k + 1]).1 ==
              AcceptAll(store, lsas[..k]).1 + if IsNewer(AcceptAll(store, lsas[..k]).0, lsas[k]) then [lsas[k]] else []
  {
    assert lsas[..k + 1][..k] == lsas[..k] && lsas[..k + 1][k] == lsas[k];
  }

  /** The acceptance rule: the received LSA is stored exactly when it is
      newer; every other originator keeps its entry. */
  lemma AcceptRule(store: Store, received: LsaValue)
    ensures IsNewer(store, received) ==> Accept(store, received)[received.linkStateID] == received
    ensures !IsNewer(store, received) ==> Accept(store, received) == store
    ensures forall k :: k in store && k != received.linkStateID ==> Accept(store, received)[k] == store[k]
  {
  }

  /** Store entries only move forward: no originator is forgotten and no
      sequence number goes back. */
  ghost predicate Advances(before: Store, after: Store) {
    before.Keys <= after.Keys &&
    forall k :: k in before ==> before[k].lsaSeqNumber <= after[k].lsaSeqNumber
  }

  lemma AcceptAdvances(store: Store, received: LsaValue)
    ensures Advances(store, Accept(store, received))
    ensures Keyed(store) ==> Keyed(Accept(store, received))
  {
  }

  /** Accepting the same LSA twice is accepting it once. */
  lemma AcceptIdempotent(store: Store, received: LsaValue)
    ensures Accept(Accept(store, received), received) == Accept(store, received)
  {
  }

  /** Some originator is new, or has a greater sequence number. */
  ghost predicate Raised(before: Store, after: Store) {
    exists k :: k in after && (k !in before || before[k].lsaSeqNumber < after[k].lsaSeqNumber)
  }

  /** After a whole packet the store has only advanced and stays keyed;
      if anything was flooded on, the store has moved. */
  lemma {:induction false} AcceptAllAdvances(store: Store, lsas: seq<LsaValue>)
    ensures Advances(store, AcceptAll(store, lsas).0)
    ensures Keyed(store) ==> Keyed(AcceptAll(store, lsas).0)
    ensures AcceptAll(store, lsas).1 != [] ==> Raised(store, AcceptAll(store, lsas).0)
    decreases |lsas|
  {
    if |lsas| > 0 {
      var front := lsas[..|lsas| - 1];
      var last := lsas[|lsas| - 1];
      AcceptAllAdvances(store, front);
      var before := AcceptAll(store, front).0;
      if IsNewer(before, last) {
        var k := last.linkStateID;
        assert k in Accept(before, last);
        assert k !in store || store[k].lsaSeqNumber < Accept(before, last)[k].lsaSeqNumber;
      } else if AcceptAll(store, lsas).1 != [] {
        assert Accept(before, last) == before;
      }
    }
  }

  /** Nothing is flooded on exactly when the packet leaves the store as it
      was: an accepted LSA adds an originator or raises a sequence number,
      and later LSAs of the packet never take that back. */
  lemma {:induction false} FloodedIffChanged(store: Store, lsas: seq<LsaValue>)
    ensures AcceptAll(store, lsas).1 == [] <==> AcceptAll(store, lsas).0 == store
    decreases |lsas|
  {
    AcceptAllAdvances(store, lsas);
    if |lsas| > 0 {
      FloodedIffChanged(store, lsas[..|lsas| - 1]);
    }
  }

  // ---------------------------------------------------------------------
  // updateLSA.

  /** What updateLSA leaves in the store, and the LSA it returns (None:
      the call ends in a NullPointerException). */
  datatype Update = Update(store: Store, result: Option<LsaValue>)

  /** Mode 0: a description of the new neighbour is appended to the
      router's own LSA and its sequence number goes up by one. Without an
      own entry the call fails and the store is unchanged. */
  function AddLinkUpdate(store: Store, self: string, ld: LinkDescription): Update {
    if self !in store then Update(store, None)
    else
      var own := store[self];
      var updated := own.(lsaSeqNumber := Inc32(own.lsaSeqNumber), links := own.links + [ld]);
      Update(store[self := updated], Some(updated))
  }

  /** The descriptions of `links` not leading to `id`, in their order. */
  function StripLinks(links: seq<LinkDescription>, id: string): seq<LinkDescription>
    decreases |links|
  {
    if |links| == 0 then []
    else (if links[0].linkID == id then [] else [links[0]]) + StripLinks(links[1..], id)
  }

  /** Mode 1: the neighbour's entry leaves the store, and the router's own
      LSA loses every description of it, its sequence number going up once
      for the call and once more per removed description. The call fails
      after the removal when the router has no own entry left: when it
      never had one, and when the neighbour is the router itself (the own
      LSA was incremented and then removed). */
  function DropNeighbourUpdate(store: Store, self: string, neighbour: string): Update {
    if self !in store || neighbour == self then Update(store - {neighbour}, None)
    else
      var own := store[self];
      var kept := StripLinks(own.links, neighbour);
      var updated := own.(lsaSeqNumber := Wrap32(own.lsaSeqNumber + 1 + (|own.links| - |kept|)), links := kept);
      Update((store - {neighbour})[self := updated], Some(updated))
  }

  // ---------------------------------------------------------------------
  // Properties of the updates.

  /** Mode 0 appends exactly one description at the end, raises the
      sequence number by exactly one and touches no other originator; it
      fails exactly when there is no own entry. */
  lemma AddLinkEffect(store: Store, self: string, ld: LinkDescription)
    ensures AddLinkUpdate(store, self, ld).result.None? <==> self !in store
    ensures self in store ==>
              var u := AddLinkUpdate(store, self, ld).store;
              u.Keys == store.Keys &&
              u[self].links == store[self].links + [ld] &&
              u[self].lsaSeqNumber == Inc32(store[self].lsaSeqNumber) &&
              u[self].linkStateID == store[self].linkStateID &&
              (forall k :: k in store && k != self ==> u[k] == store[k])
  {
  }

  lemma AddLinkKeepsKeyed(store: Store, self: string, ld: LinkDescription)
    requires Keyed(store)
    ensures Keyed(AddLinkUpdate(store, self, ld).store)
  {
  }

  /** Stripping keeps the order of the survivors: it distributes over concatenation. */
  lemma {:induction false} StripAppend(a: seq<LinkDescription>, b: seq<LinkDescription>, id: string)
    ensures StripLinks(a + b, id) == StripLinks(a, id) + StripLinks(b, id)
    decreases |a|
  {
    if |a| > 0 {
      assert (a + b)[0] == a[0] && (a + b)[1..] == a[1..] + b;
      StripAppend(a[1..], b, id);
    } else {
      assert a + b == b;
    }
  }

  /** A description survives exactly when it was there and does not lead
      to `id`; at most the original number survive. */
  lemma {:induction false} StripMembers(links: seq<LinkDescription>, id: string)
    ensures forall ld :: ld in StripLinks(links, id) <==> ld in links && ld.linkID != id
    ensures |StripLinks(links, id)| <= |links|
    decreases |links|
  {
    if |links| > 0 {
      StripMembers(links[1..], id);
      assert links == [links[0]] + links[1..];
    }
  }

  /** Without a description of `id` there is nothing to strip, so
      stripping twice is stripping once. */
  lemma {:induction false} StripIdempotent(links: seq<LinkDescription>, id: string)
    ensures StripLinks(StripLinks(links, id), id) == StripLinks(links, id)
    decreases |links|
  {
    if |links| > 0 {
      StripIdempotent(links[1..], id);
      var rest := StripLinks(links[1..], id);
      if links[0].linkID == id {
        assert StripLinks(links, id) == [] + rest == rest;
      } else {
        var once := [links[0]] + rest;
        assert once[0] == links[0] && once[1..] == rest;
        assert StripLinks(once, id) == [links[0]] + StripLinks(rest, id);
      }
    }
  }

  /** Mode 1 removes the neighbour's entry, leaves no own description of
      it, keeps every other originator, and raises the own sequence number
      by one plus the number of removed descriptions (in Java int arithmetic). */
  lemma DropNeighbourEffect(store: Store, self: string, neighbour: string)
    ensures DropNeighbourUpdate(store, self, neighbour).result.None? <==> self !in store || neighbour == self
    ensures neighbour !in DropNeighbourUpdate(store, self, neighbour).store
    ensures forall k :: k in store && k != self && k != neighbour ==>
              k in DropNeighbourUpdate(store, self, neighbour).store &&
              DropNeighbourUpdate(store, self, neighbour).store[k] == store[k]
    ensures self in store && neighbour != self ==>
              var own := DropNeighbourUpdate(store, self, neighbour).store[self];
              (forall j :: 0 <= j < |own.links| ==> own.links[j].linkID != neighbour) &&
              (forall ld :: ld in store[self].links && ld.linkID != neighbour ==> ld in own.links) &&
              own.lsaSeqNumber == Wrap32(store[self].lsaSeqNumber + 1 + (|store[self].links| - |own.links|)) &&
              |own.links| <= |store[self].links|
  {
    if self in store && neighbour != self {
      StripMembers(store[self].links, neighbour);
    }
  }

  lemma DropNeighbourKeepsKeyed(store: Store, self: string, neighbour: string)
    requires Keyed(store)
    ensures Keyed(DropNeighbourUpdate(store, self, neighbour).store)
  {
  }
}
