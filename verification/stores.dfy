/** Inventory helpers the systems call. core/components/storage.ts and
    src/components/production.ts are not part of this model; the helpers are
    given the plain meaning their names and call sites suggest:
    `addStorage`/`removeStorage` move the stored and available quantities of
    one commodity by the given amount (no capacity check; the fourth
    argument, `false` at core/systems/producing.ts:43, is ignored),
    `hasSufficientStorage` compares the available quantity,
    `getAvailableSpace` is the capacity left over all commodities, and
    `getRequiredStorage` sums a recipe's consumption and production. */
module Stores {
  import opened Commodities
  import opened Components

  /** Every per-commodity record of the storage has an entry for every
      commodity. */
  predicate Holds(s: CommodityStorage) {
    Total(s.stored) && Total(s.availableWares) && Total(s.quota)
  }

  /** `addStorage(storage, c, q)`. */
  function AddStorage(s: CommodityStorage, c: Commodity, q: int): (r: CommodityStorage)
    requires c in s.stored && c in s.availableWares
    ensures r.max == s.max && r.quota == s.quota
    ensures r.stored.Keys == s.stored.Keys && r.availableWares.Keys == s.availableWares.Keys
  {
    s.(stored := s.stored[c := s.stored[c] + q],
       availableWares := s.availableWares[c := s.availableWares[c] + q])
  }

  /** `removeStorage(storage, c, q)`. */
  function RemoveStorage(s: CommodityStorage, c: Commodity, q: int): (r: CommodityStorage)
    requires c in s.stored && c in s.availableWares
    ensures r.max == s.max && r.quota == s.quota
    ensures r.stored.Keys == s.stored.Keys && r.availableWares.Keys == s.availableWares.Keys
  {
    AddStorage(s, c, -q)
  }

  /** `hasSufficientStorage(storage, c, q)`. */
  predicate HasSufficientStorage(s: CommodityStorage, c: Commodity, q: real)
    requires c in s.availableWares
  {
    s.availableWares[c] as real >= q
  }

  /** The stored quantities of `cs`, summed. */
  function SumOf(m: map<Commodity, int>, cs: seq<Commodity>): int
    requires forall i :: 0 <= i < |cs| ==> cs[i] in m
    decreases |cs|
  {
    if |cs| == 0 then 0 else m[cs[0]] + SumOf(m, cs[1..])
  }

  /** `getAvailableSpace(storage)`. */
  function AvailableSpace(s: CommodityStorage): int
    requires Total(s.stored)
  {
    s.max - SumOf(s.stored, All)
  }

  /** `consumes + produces` of `cs`, summed. */
  function ThroughputOf(pac: map<Commodity, Pac>, cs: seq<Commodity>): real
    requires forall i :: 0 <= i < |cs| ==> cs[i] in pac
    decreases |cs|
  {
    if |cs| == 0 then 0.0 else pac[cs[0]].consumes + pac[cs[0]].produces + ThroughputOf(pac, cs[1..])
  }

  /** `getRequiredStorage(production)`. */
  function RequiredStorage(pac: map<Commodity, Pac>): real
    requires Total(pac)
  {
    ThroughputOf(pac, All)
  }

  /** No recipe entry is negative. */
  predicate NonNegative(pac: map<Commodity, Pac>) {
    forall c :: c in pac ==> pac[c].consumes >= 0.0 && pac[c].produces >= 0.0
  }

  /** With no negative entry, the summed throughput of a list is never
      negative and covers the throughput of each commodity it names. */
  lemma {:induction false} ThroughputCovers(pac: map<Commodity, Pac>, cs: seq<Commodity>, c: Commodity)
    requires forall i :: 0 <= i < |cs| ==> cs[i] in pac
    requires NonNegative(pac)
    ensures 0.0 <= ThroughputOf(pac, cs)
    ensures c in cs ==> pac[c].consumes + pac[c].produces <= ThroughputOf(pac, cs)
    decreases |cs|
  {
    if |cs| > 0 {
      assert c in cs && c != cs[0] ==> c in cs[1..];
      ThroughputCovers(pac, cs[1..], c);
    }
  }
}
