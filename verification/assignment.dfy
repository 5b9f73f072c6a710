/** Per-slot assignments of candidates: what makes one feasible (one
    candidate per slot meeting that slot's minimum, no instance used twice,
    chips within budget) and what makes one optimal. */
module Assignment {

  import opened Combinations
  import opened Candidates

  /** `a[s]` is the index, in the candidate list, of the candidate filling slot s. */
  type Choice = seq<nat>

  /** A candidate may fill a slot when its resonance reaches the slot's
      minimum (`resonance >= min_reqs_per_tb[tb]`, compared in tenths). */
  predicate Eligible(c: Candidate, minReq: nat)
  {
    c.resonance10 >= 10 * minReq
  }

  /** The quantities the optimizer sums over chosen (candidate, slot) pairs:
      how often a slot is filled, how often an instance is used, the chips
      spent, and the resonance obtained. */
  datatype Measure = SlotHit(slot: nat) | InstanceUse(instance: nat) | ChipCost | Resonance

  /** What choosing candidate `cand` for slot `slot` adds to a measure. */
  function Coefficient(cands: seq<Candidate>, cand: nat, slot: nat, m: Measure): nat
  {
    match m
    case SlotHit(tb) => if slot == tb then 1 else 0
    case InstanceUse(i) => if cand < |cands| && i in cands[cand].idxs.Indices() then 1 else 0
    case ChipCost => if cand < |cands| then cands[cand].chips else 0
    case Resonance => if cand < |cands| then cands[cand].resonance10 else 0
  }

  /** A measure summed over the first n slots of a choice. */
  function SlotSum(cands: seq<Candidate>, a: Choice, m: Measure, n: nat): nat
    requires n <= |a|
  {
    if n == 0 then 0 else SlotSum(cands, a, m, n - 1) + Coefficient(cands, a[n - 1], n - 1, m)
  }

  /** Total resonance (tenths) of a choice. */
  function Total(cands: seq<Candidate>, a: Choice): nat
  {
    SlotSum(cands, a, Resonance, |a|)
  }

  /** Chips a choice spends. */
  function ChipsUsed(cands: seq<Candidate>, a: Choice): nat
  {
    SlotSum(cands, a, ChipCost, |a|)
  }

  /** Number of slots whose candidate uses instance i. */
  function UseCount(cands: seq<Candidate>, a: Choice, i: nat): nat
  {
    SlotSum(cands, a, InstanceUse(i), |a|)
  }

  predicate InRange(cands: seq<Candidate>, a: Choice)
  {
    forall s :: 0 <= s < |a| ==> a[s] < |cands|
  }

  /** No instance belongs to the candidates of two different slots. */
  predicate PartsDisjoint(cands: seq<Candidate>, a: Choice)
    requires InRange(cands, a)
  {
    forall s, t :: 0 <= s < t < |a| ==> cands[a[s]].idxs.Indices() !! cands[a[t]].idxs.Indices()
  }

  /** Every slot is filled by a candidate meeting its minimum, no instance is
      used twice, and the chips spent stay within the budget. */
  predicate Feasible(cands: seq<Candidate>, mins: seq<nat>, budget: nat, a: Choice)
  {
    && |a| == |mins|
    && InRange(cands, a)
    && (forall s :: 0 <= s < |a| ==> Eligible(cands[a[s]], mins[s]))
    && PartsDisjoint(cands, a)
    && ChipsUsed(cands, a) <= budget
  }

  /** A feasible choice no feasible choice beats in total resonance. */
  ghost predicate Optimal(cands: seq<Candidate>, mins: seq<nat>, budget: nat, a: Choice)
  {
    && Feasible(cands, mins, budget, a)
    && forall b :: Feasible(cands, mins, budget, b) ==> Total(cands, b) <= Total(cands, a)
  }

  /** Every candidate's indices form a combination of n instances. */
  predicate IndicesBelow(cands: seq<Candidate>, n: nat)
  {
    forall c :: c in cands ==> IsCombination(c.idxs, n)
  }

  /** Instance i is used by none of the first n slots exactly when its use
      count over them is 0. */
  lemma {:induction false} UseCountZero(cands: seq<Candidate>, a: Choice, i: nat, n: nat)
    requires InRange(cands, a) && n <= |a|
    ensures SlotSum(cands, a, InstanceUse(i), n) == 0 <==>
      forall s :: 0 <= s < n ==> i !in cands[a[s]].idxs.Indices()
  {
    if n > 0 {
      UseCountZero(cands, a, i, n - 1);
    }
  }

  /** An instance counted at most once over the first n slots belongs to
      at most one of them. */
  lemma {:induction false} UsedOnceSeparates(cands: seq<Candidate>, a: Choice, i: nat, s: nat, t: nat, n: nat)
    requires InRange(cands, a) && s < t < n <= |a|
    requires SlotSum(cands, a, InstanceUse(i), n) <= 1
    ensures !(i in cands[a[s]].idxs.Indices() && i in cands[a[t]].idxs.Indices())
  {
    if t < n - 1 {
      UsedOnceSeparates(cands, a, i, s, t, n - 1);
    } else if i in cands[a[t]].idxs.Indices() {
      UseCountZero(cands, a, i, n - 1);
    }
  }

  /** Disjoint slots use every instance at most once. */
  lemma {:induction false} DisjointUseAtMostOnce(cands: seq<Candidate>, a: Choice, i: nat, n: nat)
    requires InRange(cands, a) && PartsDisjoint(cands, a) && n <= |a|
    ensures SlotSum(cands, a, InstanceUse(i), n) <= 1
  {
    if n > 0 {
      DisjointUseAtMostOnce(cands, a, i, n - 1);
      if i in cands[a[n - 1]].idxs.Indices() {
        forall s | 0 <= s < n - 1
          ensures i !in cands[a[s]].idxs.Indices()
        {
          assert cands[a[s]].idxs.Indices() !! cands[a[n - 1]].idxs.Indices();
        }
        UseCountZero(cands, a, i, n - 1);
      }
    }
  }

  /** The two ways of saying "no instance is used twice" agree: pairwise
      disjoint slots, and every instance index below n counted at most once
      (the program's `<= 1` constraint per instance). */
  lemma DisjointIffUsedAtMostOnce(cands: seq<Candidate>, a: Choice, n: nat)
    requires InRange(cands, a) && IndicesBelow(cands, n)
    ensures PartsDisjoint(cands, a) <==> forall i :: 0 <= i < n ==> UseCount(cands, a, i) <= 1
  {
    if PartsDisjoint(cands, a) {
      forall i | 0 <= i < n
        ensures UseCount(cands, a, i) <= 1
      {
        DisjointUseAtMostOnce(cands, a, i, |a|);
      }
    }
    if forall i :: 0 <= i < n ==> UseCount(cands, a, i) <= 1 {
      forall s, t, i | 0 <= s < t < |a| && i in cands[a[s]].idxs.Indices()
        ensures i !in cands[a[t]].idxs.Indices()
      {
        assert cands[a[s]] in cands;
        CombinationSize(cands[a[s]].idxs, n);
        assert UseCount(cands, a, i) <= 1;
        UsedOnceSeparates(cands, a, i, s, t, |a|);
      }
    }
  }

  /** The instances used by the first n slots. */
  function UsedInstances(cands: seq<Candidate>, a: Choice, n: nat): set<nat>
    requires InRange(cands, a) && n <= |a|
  {
    if n == 0 then {} else UsedInstances(cands, a, n - 1) + cands[a[n - 1]].idxs.Indices()
  }

  /** The indices 0 .. n - 1. */
  function Below(n: nat): set<nat>
  {
    if n == 0 then {} else Below(n - 1) + {n - 1}
  }

  lemma {:induction false} BelowFacts(n: nat)
    ensures |Below(n)| == n
    ensures forall x :: x in Below(n) <==> 0 <= x < n
  {
    if n > 0 {
      BelowFacts(n - 1);
      assert Below(n) == Below(n - 1) + {n - 1};
      forall x
        ensures x in Below(n) <==> 0 <= x < n
      {
        assert x in Below(n - 1) <==> 0 <= x < n - 1;
      }
    }
  }

  lemma {:induction false} UsedInstancesSize(cands: seq<Candidate>, a: Choice, n: nat, bound: nat)
    requires InRange(cands, a) && PartsDisjoint(cands, a) && IndicesBelow(cands, bound) && n <= |a|
    ensures |UsedInstances(cands, a, n)| == 3 * n
    ensures UsedInstances(cands, a, n) <= Below(bound)
  {
    if n > 0 {
      UsedInstancesSize(cands, a, n - 1, bound);
      BelowFacts(bound);
      var last := cands[a[n - 1]].idxs.Indices();
      assert cands[a[n - 1]] in cands;
      CombinationSize(cands[a[n - 1]].idxs, bound);
      assert UsedInstances(cands, a, n - 1) !! last by {
        forall x | x in last
          ensures x !in UsedInstances(cands, a, n - 1)
        {
          UsedBy(cands, a, n - 1, x);
        }
      }
    }
  }

  /** An instance used by the first n slots is used by one of them. */
  lemma {:induction false} UsedBy(cands: seq<Candidate>, a: Choice, n: nat, x: nat)
    requires InRange(cands, a) && n <= |a|
    ensures x in UsedInstances(cands, a, n) <==> exists s :: 0 <= s < n && x in cands[a[s]].idxs.Indices()
  {
    if n > 0 {
      UsedBy(cands, a, n - 1, x);
    }
  }

  /** Pigeonhole: filling every slot with three instances nobody else uses
      needs at least three instances per slot. */
  lemma Pigeonhole(cands: seq<Candidate>, mins: seq<nat>, budget: nat, a: Choice, n: nat)
    requires IndicesBelow(cands, n)
    requires Feasible(cands, mins, budget, a)
    ensures 3 * |mins| <= n
  {
    UsedInstancesSize(cands, a, |a|, n);
    BelowFacts(n);
    SubsetSize(UsedInstances(cands, a, |a|), Below(n));
  }

  lemma {:induction false} SubsetSize(x: set<nat>, y: set<nat>)
    requires x <= y
    ensures |x| <= |y|
  {
    if x != {} {
      var e :| e in x;
      SubsetSize(x - {e}, y - {e});
    }
  }

  /** A slot no candidate is eligible for cannot be filled. */
  lemma NoEligibleCandidate(cands: seq<Candidate>, mins: seq<nat>, budget: nat, a: Choice, s: nat)
    requires s < |mins|
    requires forall c :: c in cands ==> !Eligible(c, mins[s])
    ensures !Feasible(cands, mins, budget, a)
  {
    if |a| == |mins| && InRange(cands, a) {
      assert cands[a[s]] in cands;
    }
  }
}
