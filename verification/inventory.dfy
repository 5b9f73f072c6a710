/** The user's inventory and its expansion into individually tracked part
    instances. */
module Inventory {

  import opened Seqs
  import opened Tables

  /** How many parts of each type the user owns; a missing type counts 0. */
  type Inventory = map<PartType, nat>

  function Count(inv: Inventory, p: PartType): nat
  {
    if p in inv then inv[p] else 0
  }

  /** Number of parts owned of the listed types. */
  function TotalOver(inv: Inventory, ps: seq<PartType>): nat
  {
    if |ps| == 0 then 0 else Count(inv, ps[0]) + TotalOver(inv, ps[1..])
  }

  /** Number of parts owned in all, summed over every type's count. */
  function TotalParts(inv: Inventory): nat
  {
    TotalOver(inv, AllParts)
  }

  /** n copies of one part type. */
  function Repeat(p: PartType, n: nat): (r: seq<PartType>)
    ensures |r| == n
    ensures forall k :: 0 <= k < n ==> r[k] == p
  {
    if n == 0 then [] else [p] + Repeat(p, n - 1)
  }

  /** One instance per owned part of the listed types, type by type. */
  function ExpandOver(inv: Inventory, ps: seq<PartType>): seq<PartType>
  {
    if |ps| == 0 then [] else Repeat(ps[0], Count(inv, ps[0])) + ExpandOver(inv, ps[1..])
  }

  /** The instance list: instance k is the part at index k. */
  function Expand(inv: Inventory): (inst: seq<PartType>)
    ensures |inst| == TotalParts(inv)
    ensures forall p :: multiset(inst)[p] == Count(inv, p)
  {
    AllPartsDistinct();
    AllPartsComplete();
    ExpandOverFacts(inv, AllParts);
    ExpandOver(inv, AllParts)
  }

  lemma RepeatOccurrences(p: PartType, n: nat, q: PartType)
    ensures multiset(Repeat(p, n))[q] == if q == p then n else 0
  {
    if n > 0 {
      RepeatOccurrences(p, n - 1, q);
    }
  }

  /** Expanding a duplicate-free list of types yields as many instances as
      those types count, and each listed type exactly its count of times. */
  lemma {:induction false} ExpandOverFacts(inv: Inventory, ps: seq<PartType>)
    requires Distinct(ps)
    ensures |ExpandOver(inv, ps)| == TotalOver(inv, ps)
    ensures forall p :: multiset(ExpandOver(inv, ps))[p] == if p in ps then Count(inv, p) else 0
  {
    if |ps| > 0 {
      var rest := ps[1..];
      assert Distinct(rest) by {
        forall a, b | 0 <= a < b < |rest| ensures rest[a] != rest[b] {
          assert rest[a] == ps[a + 1] && rest[b] == ps[b + 1];
        }
      }
      ExpandOverFacts(inv, rest);
      forall p
        ensures multiset(ExpandOver(inv, ps))[p] == if p in ps then Count(inv, p) else 0
      {
        RepeatOccurrences(ps[0], Count(inv, ps[0]), p);
        assert p in ps <==> p == ps[0] || p in rest;
      }
    }
  }
}
