/** The integer program the optimizer hands to its solver, stated over a 0/1
    vector: one binary decision per eligible (candidate, slot) pair, exactly
    one decision per slot, every instance in at most one chosen candidate,
    the chips within budget, and the summed resonance as objective. Also the
    read-back of a solution into one candidate per slot, and the proof that
    solutions of the program and feasible per-slot choices correspond
    one-to-one with equal objective. */
module Ilp {

  import opened Wrappers
  import opened Seqs
  import opened Candidates
  import opened Assignment

  /** One binary decision: candidate `cand` fills slot `slot`. */
  datatype Var = Var(cand: nat, slot: nat)

  /** Decisions for one slot, over candidates c, c + 1, ... eligible for it. */
  function SlotVars(cands: seq<Candidate>, minReq: nat, slot: nat, c: nat): seq<Var>
    decreases |cands| - c
  {
    if c >= |cands| then []
    else (if Eligible(cands[c], minReq) then [Var(c, slot)] else []) + SlotVars(cands, minReq, slot, c + 1)
  }

  /** Decisions for slots slot, slot + 1, ..., slot by slot. */
  function VarsFrom(cands: seq<Candidate>, mins: seq<nat>, slot: nat): seq<Var>
    decreases |mins| - slot
  {
    if slot >= |mins| then [] else SlotVars(cands, mins[slot], slot, 0) + VarsFrom(cands, mins, slot + 1)
  }

  /** The program's variables: one per (candidate, slot) pair whose candidate
      meets the slot's minimum, and no other; pairs below the minimum get no
      variable at all. */
  function Vars(cands: seq<Candidate>, mins: seq<nat>): (vars: seq<Var>)
    ensures forall v :: v in vars <==> v.slot < |mins| && v.cand < |cands| && Eligible(cands[v.cand], mins[v.slot])
    ensures Distinct(vars)
  {
    VarsFromFacts(cands, mins, 0);
    VarsFrom(cands, mins, 0)
  }

  lemma {:induction false} SlotVarsFacts(cands: seq<Candidate>, minReq: nat, slot: nat, c: nat)
    ensures forall v :: v in SlotVars(cands, minReq, slot, c) <==>
      v.slot == slot && c <= v.cand < |cands| && Eligible(cands[v.cand], minReq)
    ensures Distinct(SlotVars(cands, minReq, slot, c))
    decreases |cands| - c
  {
    if c < |cands| {
      SlotVarsFacts(cands, minReq, slot, c + 1);
      var head := if Eligible(cands[c], minReq) then [Var(c, slot)] else [];
      DistinctConcat(head, SlotVars(cands, minReq, slot, c + 1));
    }
  }

  lemma {:induction false} VarsFromFacts(cands: seq<Candidate>, mins: seq<nat>, slot: nat)
    ensures forall v :: v in VarsFrom(cands, mins, slot) <==>
      slot <= v.slot < |mins| && v.cand < |cands| && Eligible(cands[v.cand], mins[v.slot])
    ensures Distinct(VarsFrom(cands, mins, slot))
    decreases |mins| - slot
  {
    if slot < |mins| {
      SlotVarsFacts(cands, mins[slot], slot, 0);
      VarsFromFacts(cands, mins, slot + 1);
      DistinctConcat(SlotVars(cands, mins[slot], slot, 0), VarsFrom(cands, mins, slot + 1));
    }
  }

  /** A measure summed over the chosen ones among the first n decisions
      (each constraint and the objective are such sums). */
  function Sum(cands: seq<Candidate>, vars: seq<Var>, xs: seq<bool>, m: Measure, n: nat): nat
    requires n <= |vars| && n <= |xs|
  {
    if n == 0 then 0
    else
      var step := if xs[n - 1] then Coefficient(cands, vars[n - 1].cand, vars[n - 1].slot, m) else 0;
      Sum(cands, vars, xs, m, n - 1) + step
  }

  /** The program's constraints, for `instances` part instances. */
  predicate IlpFeasible(cands: seq<Candidate>, mins: seq<nat>, instances: nat, budget: nat, vars: seq<Var>, xs: seq<bool>)
  {
    && |xs| == |vars|
    && (forall tb :: 0 <= tb < |mins| ==> Sum(cands, vars, xs, SlotHit(tb), |vars|) == 1)
    && (forall i :: 0 <= i < instances ==> Sum(cands, vars, xs, InstanceUse(i), |vars|) <= 1)
    && Sum(cands, vars, xs, ChipCost, |vars|) <= budget
  }

  /** The program's objective: total resonance of the chosen decisions. */
  function Objective(cands: seq<Candidate>, vars: seq<Var>, xs: seq<bool>): nat
    requires |xs| == |vars|
  {
    Sum(cands, vars, xs, Resonance, |vars|)
  }

  /** A solution the solver may report as optimal. */
  ghost predicate IlpOptimal(cands: seq<Candidate>, mins: seq<nat>, instances: nat, budget: nat, vars: seq<Var>, xs: seq<bool>)
  {
    && IlpFeasible(cands, mins, instances, budget, vars, xs)
    && forall ys :: IlpFeasible(cands, mins, instances, budget, vars, ys) ==> Objective(cands, vars, ys) <= Objective(cands, vars, xs)
  }

  /** Reading a solution back (`tb_configs`): walking the first n decisions in
      order, each chosen one writes its candidate into its slot. */
  function Extract(vars: seq<Var>, xs: seq<bool>, slots: nat, n: nat): (configs: seq<Option<nat>>)
    requires n <= |vars| && n <= |xs|
    ensures |configs| == slots
  {
    if n == 0 then seq(slots, _ => None)
    else
      var prev := Extract(vars, xs, slots, n - 1);
      if xs[n - 1] && vars[n - 1].slot < slots then prev[vars[n - 1].slot := Some(vars[n - 1].cand)] else prev
  }

  predicate Filled(configs: seq<Option<nat>>)
  {
    forall tb :: 0 <= tb < |configs| ==> configs[tb].Some?
  }

  /** The candidate index of every slot of a completely filled read-back. */
  function Chosen(configs: seq<Option<nat>>): (a: Choice)
    requires Filled(configs)
    ensures |a| == |configs|
    ensures forall tb :: 0 <= tb < |a| ==> configs[tb] == Some(a[tb])
  {
    seq(|configs|, tb requires 0 <= tb < |configs| => configs[tb].value)
  }

  /** The 0/1 vector choosing, in every slot, the candidate a choice names. */
  function Encode(vars: seq<Var>, a: Choice): (xs: seq<bool>)
    ensures |xs| == |vars|
    ensures forall k :: 0 <= k < |vars| ==> (xs[k] <==> vars[k].slot < |a| && a[vars[k].slot] == vars[k].cand)
  {
    seq(|vars|, k requires 0 <= k < |vars| => vars[k].slot < |a| && a[vars[k].slot] == vars[k].cand)
  }

  /** A measure summed over the chosen ones among the first n decisions that
      belong to slot tb. */
  function SlotPart(cands: seq<Candidate>, vars: seq<Var>, xs: seq<bool>, m: Measure, tb: nat, n: nat): nat
    requires n <= |vars| && n <= |xs|
  {
    if n == 0 then 0
    else
      var step := if xs[n - 1] && vars[n - 1].slot == tb then Coefficient(cands, vars[n - 1].cand, tb, m) else 0;
      SlotPart(cands, vars, xs, m, tb, n - 1) + step
  }

  /** The slot parts of slots 0 .. slots - 1, added up. */
  function BySlot(cands: seq<Candidate>, vars: seq<Var>, xs: seq<bool>, m: Measure, slots: nat, n: nat): nat
    requires n <= |vars| && n <= |xs|
  {
    if slots == 0 then 0 else BySlot(cands, vars, xs, m, slots - 1, n) + SlotPart(cands, vars, xs, m, slots - 1, n)
  }

  /** Adding decision n - 1 adds its contribution to exactly its own slot's part. */
  lemma {:induction false} BySlotStep(cands: seq<Candidate>, vars: seq<Var>, xs: seq<bool>, m: Measure, slots: nat, n: nat)
    requires 0 < n <= |vars| && n <= |xs|
    ensures BySlot(cands, vars, xs, m, slots, n) == BySlot(cands, vars, xs, m, slots, n - 1) +
      (if xs[n - 1] && vars[n - 1].slot < slots then Coefficient(cands, vars[n - 1].cand, vars[n - 1].slot, m) else 0)
  {
    if slots > 0 {
      BySlotStep(cands, vars, xs, m, slots - 1, n);
    }
  }

  /** Before any decision, every slot's part is empty. */
  lemma {:induction false} BySlotNone(cands: seq<Candidate>, vars: seq<Var>, xs: seq<bool>, m: Measure, slots: nat)
    ensures BySlot(cands, vars, xs, m, slots, 0) == 0
  {
    if slots > 0 {
      BySlotNone(cands, vars, xs, m, slots - 1);
    }
  }

  /** When every decision belongs to one of the slots, a sum over all
      decisions is the sum of the slots' parts. */
  lemma {:induction false} SumIsBySlot(cands: seq<Candidate>, vars: seq<Var>, xs: seq<bool>, m: Measure, slots: nat, n: nat)
    requires n <= |vars| && n <= |xs|
    requires forall k :: 0 <= k < |vars| ==> vars[k].slot < slots
    ensures Sum(cands, vars, xs, m, n) == BySlot(cands, vars, xs, m, slots, n)
  {
    if n > 0 {
      SumIsBySlot(cands, vars, xs, m, slots, n - 1);
      BySlotStep(cands, vars, xs, m, slots, n);
      assert vars[n - 1].slot < slots;
    } else {
      BySlotNone(cands, vars, xs, m, slots);
    }
  }

  /** When each slot's part is what the choice's candidate for that slot
      contributes, the slot parts add up to the choice's own sum. */
  lemma {:induction false} BySlotIsSlotSum(cands: seq<Candidate>, vars: seq<Var>, xs: seq<bool>, m: Measure, a: Choice, slots: nat, n: nat)
    requires n <= |vars| && n <= |xs| && slots <= |a|
    requires forall tb :: 0 <= tb < slots ==> SlotPart(cands, vars, xs, m, tb, n) == Coefficient(cands, a[tb], tb, m)
    ensures BySlot(cands, vars, xs, m, slots, n) == SlotSum(cands, a, m, slots)
  {
    if slots > 0 {
      BySlotIsSlotSum(cands, vars, xs, m, a, slots - 1, n);
    }
  }

  /** A slot chosen at most once among the first n decisions is empty in the
      read-back exactly when it was never chosen, and otherwise holds the
      candidate of the one decision chosen for it, which alone makes up the
      slot's part of every measure. */
  lemma {:induction false} ExtractSlot(cands: seq<Candidate>, vars: seq<Var>, xs: seq<bool>, slots: nat, tb: nat, m: Measure, n: nat)
    requires tb < slots && n <= |vars| && n <= |xs|
    requires Sum(cands, vars, xs, SlotHit(tb), n) <= 1
    ensures Extract(vars, xs, slots, n)[tb].None? <==> Sum(cands, vars, xs, SlotHit(tb), n) == 0
    ensures Extract(vars, xs, slots, n)[tb].None? ==> SlotPart(cands, vars, xs, m, tb, n) == 0
    ensures Extract(vars, xs, slots, n)[tb].Some? ==>
      && SlotPart(cands, vars, xs, m, tb, n) == Coefficient(cands, Extract(vars, xs, slots, n)[tb].value, tb, m)
      && exists k :: 0 <= k < n && xs[k] && vars[k] == Var(Extract(vars, xs, slots, n)[tb].value, tb)
  {
    if n > 0 {
      ExtractSlot(cands, vars, xs, slots, tb, m, n - 1);
      var prev := Extract(vars, xs, slots, n - 1);
      var cur := Extract(vars, xs, slots, n);
      if xs[n - 1] && vars[n - 1].slot == tb {
        assert cur[tb] == Some(vars[n - 1].cand);
        assert vars[n - 1] == Var(vars[n - 1].cand, tb);
      } else {
        assert cur[tb] == prev[tb];
        if prev[tb].Some? {
          var k :| 0 <= k < n - 1 && xs[k] && vars[k] == Var(prev[tb].value, tb);
          assert 0 <= k < n && xs[k] && vars[k] == Var(cur[tb].value, tb);
        }
      }
    }
  }

  /** If every slot is chosen exactly once and the read-back names candidate
      a[tb] for every slot tb, then any measure summed over the chosen
      decisions equals that measure summed over the choice's slots. */
  lemma SumsFollowChoice(cands: seq<Candidate>, vars: seq<Var>, xs: seq<bool>, a: Choice, m: Measure)
    requires |xs| == |vars|
    requires forall k :: 0 <= k < |vars| ==> vars[k].slot < |a|
    requires forall tb :: 0 <= tb < |a| ==> Sum(cands, vars, xs, SlotHit(tb), |vars|) == 1
    requires forall tb :: 0 <= tb < |a| ==> Extract(vars, xs, |a|, |vars|)[tb] == Some(a[tb])
    ensures Sum(cands, vars, xs, m, |vars|) == SlotSum(cands, a, m, |a|)
  {
    forall tb | 0 <= tb < |a|
      ensures SlotPart(cands, vars, xs, m, tb, |vars|) == Coefficient(cands, a[tb], tb, m)
    {
      ExtractSlot(cands, vars, xs, |a|, tb, m, |vars|);
    }
    SumIsBySlot(cands, vars, xs, m, |a|, |vars|);
    BySlotIsSlotSum(cands, vars, xs, m, a, |a|, |vars|);
  }

  /** A vector choosing every slot exactly once reads back into a completely
      filled choice, each slot holding a candidate with a decision for it. */
  lemma ExtractFills(cands: seq<Candidate>, mins: seq<nat>, vars: seq<Var>, xs: seq<bool>)
    requires |xs| == |vars|
    requires forall tb :: 0 <= tb < |mins| ==> Sum(cands, vars, xs, SlotHit(tb), |vars|) == 1
    ensures Filled(Extract(vars, xs, |mins|, |vars|))
    ensures forall tb :: 0 <= tb < |mins| ==> Var(Extract(vars, xs, |mins|, |vars|)[tb].value, tb) in vars
  {
    var configs := Extract(vars, xs, |mins|, |vars|);
    forall tb | 0 <= tb < |mins|
      ensures configs[tb].Some? && Var(configs[tb].value, tb) in vars
    {
      ExtractSlot(cands, vars, xs, |mins|, tb, Resonance, |vars|);
      var k :| 0 <= k < |vars| && xs[k] && vars[k] == Var(configs[tb].value, tb);
    }
  }

  /** A choice each of whose slots has a decision in the program is in range
      and meets every slot's minimum. */
  lemma ChoiceFromVars(cands: seq<Candidate>, mins: seq<nat>, a: Choice)
    requires |a| == |mins|
    requires forall tb :: 0 <= tb < |a| ==> Var(a[tb], tb) in Vars(cands, mins)
    ensures InRange(cands, a)
    ensures forall s :: 0 <= s < |a| ==> Eligible(cands[a[s]], mins[s])
  {
    forall s | 0 <= s < |a|
      ensures a[s] < |cands| && Eligible(cands[a[s]], mins[s])
    {
      assert Var(a[s], s) in Vars(cands, mins);
    }
  }

  /** Every decision of the program belongs to one of its slots. */
  lemma VarsInSlots(cands: seq<Candidate>, mins: seq<nat>)
    ensures forall k :: 0 <= k < |Vars(cands, mins)| ==> Vars(cands, mins)[k].slot < |mins|
  {
    var vars := Vars(cands, mins);
    forall k | 0 <= k < |vars|
      ensures vars[k].slot < |mins|
    {
      assert vars[k] in vars;
    }
  }

  /** Every solution of the program reads back into a completely filled,
      feasible per-slot choice whose total resonance is the solution's
      objective value. */
  lemma ExtractFeasible(cands: seq<Candidate>, mins: seq<nat>, instances: nat, budget: nat, xs: seq<bool>)
    requires IndicesBelow(cands, instances)
    requires IlpFeasible(cands, mins, instances, budget, Vars(cands, mins), xs)
    ensures Filled(Extract(Vars(cands, mins), xs, |mins|, |xs|))
    ensures Feasible(cands, mins, budget, Chosen(Extract(Vars(cands, mins), xs, |mins|, |xs|)))
    ensures Total(cands, Chosen(Extract(Vars(cands, mins), xs, |mins|, |xs|))) == Objective(cands, Vars(cands, mins), xs)
  {
    var vars := Vars(cands, mins);
    ExtractFills(cands, mins, vars, xs);
    var configs := Extract(vars, xs, |mins|, |vars|);
    var a := Chosen(configs);
    ChoiceFromVars(cands, mins, a);
    VarsInSlots(cands, mins);
    assert forall tb :: 0 <= tb < |a| ==> Extract(vars, xs, |a|, |vars|)[tb] == Some(a[tb]);
    SumsFollowChoice(cands, vars, xs, a, Resonance);
    SumsFollowChoice(cands, vars, xs, a, ChipCost);
    forall i | 0 <= i < instances
      ensures UseCount(cands, a, i) <= 1
    {
      SumsFollowChoice(cands, vars, xs, a, InstanceUse(i));
    }
    DisjointIffUsedAtMostOnce(cands, a, instances);
  }

  /** Each slot of an encoded choice is chosen once: by the one decision
      naming that slot's candidate. */
  lemma {:induction false} EncodeSlotCount(cands: seq<Candidate>, vars: seq<Var>, a: Choice, tb: nat, n: nat)
    requires Distinct(vars) && tb < |a| && n <= |vars|
    ensures Sum(cands, vars, Encode(vars, a), SlotHit(tb), n) == if Var(a[tb], tb) in vars[..n] then 1 else 0
  {
    if n > 0 {
      EncodeSlotCount(cands, vars, a, tb, n - 1);
      assert vars[..n] == vars[..n - 1] + [vars[n - 1]];
      if vars[n - 1] == Var(a[tb], tb) {
        assert forall k :: 0 <= k < n - 1 ==> vars[k] != vars[n - 1];
        assert Var(a[tb], tb) !in vars[..n - 1];
      }
    }
  }

  /** Encoding a choice that has a decision for each of its slots chooses
      every slot exactly once, and reading the vector back gives the choice. */
  lemma EncodeReadsBack(cands: seq<Candidate>, mins: seq<nat>, a: Choice)
    requires |a| == |mins|
    requires forall tb :: 0 <= tb < |a| ==> Var(a[tb], tb) in Vars(cands, mins)
    ensures forall tb :: 0 <= tb < |a| ==> Sum(cands, Vars(cands, mins), Encode(Vars(cands, mins), a), SlotHit(tb), |Vars(cands, mins)|) == 1
    ensures forall tb :: 0 <= tb < |a| ==> Extract(Vars(cands, mins), Encode(Vars(cands, mins), a), |a|, |Vars(cands, mins)|)[tb] == Some(a[tb])
  {
    var vars := Vars(cands, mins);
    var xs := Encode(vars, a);
    var configs := Extract(vars, xs, |a|, |vars|);
    forall tb | 0 <= tb < |a|
      ensures Sum(cands, vars, xs, SlotHit(tb), |vars|) == 1
      ensures configs[tb] == Some(a[tb])
    {
      EncodeSlotCount(cands, vars, a, tb, |vars|);
      assert vars[..|vars|] == vars;
      ExtractSlot(cands, vars, xs, |a|, tb, Resonance, |vars|);
      var k :| 0 <= k < |vars| && xs[k] && vars[k] == Var(configs[tb].value, tb);
    }
  }

  /** Every feasible per-slot choice is a solution of the program with the
      same objective value, and reading it back gives the choice again. */
  lemma EncodeFeasible(cands: seq<Candidate>, mins: seq<nat>, instances: nat, budget: nat, a: Choice)
    requires IndicesBelow(cands, instances)
    requires Feasible(cands, mins, budget, a)
    ensures IlpFeasible(cands, mins, instances, budget, Vars(cands, mins), Encode(Vars(cands, mins), a))
    ensures Objective(cands, Vars(cands, mins), Encode(Vars(cands, mins), a)) == Total(cands, a)
    ensures Extract(Vars(cands, mins), Encode(Vars(cands, mins), a), |mins|, |Vars(cands, mins)|) == seq(|a|, s requires 0 <= s < |a| => Some(a[s]))
  {
    var vars := Vars(cands, mins);
    var xs := Encode(vars, a);
    assert forall tb :: 0 <= tb < |a| ==> Var(a[tb], tb) in vars;
    EncodeReadsBack(cands, mins, a);
    EncodedSum(cands, mins, a, Resonance);
    EncodedSum(cands, mins, a, ChipCost);
    DisjointIffUsedAtMostOnce(cands, a, instances);
    forall i | 0 <= i < instances
      ensures Sum(cands, vars, xs, InstanceUse(i), |vars|) <= 1
    {
      assert UseCount(cands, a, i) <= 1;
      EncodedSum(cands, mins, a, InstanceUse(i));
    }
  }

  /** Any measure summed over an encoded choice's decisions equals that
      measure summed over the choice's slots. */
  lemma EncodedSum(cands: seq<Candidate>, mins: seq<nat>, a: Choice, m: Measure)
    requires |a| == |mins|
    requires forall tb :: 0 <= tb < |a| ==> Var(a[tb], tb) in Vars(cands, mins)
    ensures Sum(cands, Vars(cands, mins), Encode(Vars(cands, mins), a), m, |Vars(cands, mins)|) == SlotSum(cands, a, m, |a|)
  {
    EncodeReadsBack(cands, mins, a);
    VarsInSlots(cands, mins);
    SumsFollowChoice(cands, Vars(cands, mins), Encode(Vars(cands, mins), a), a, m);
  }

  /** What the solver reports as optimal reads back into an optimal choice. */
  lemma ExtractOptimal(cands: seq<Candidate>, mins: seq<nat>, instances: nat, budget: nat, xs: seq<bool>)
    requires IndicesBelow(cands, instances)
    requires IlpOptimal(cands, mins, instances, budget, Vars(cands, mins), xs)
    ensures Filled(Extract(Vars(cands, mins), xs, |mins|, |xs|))
    ensures Optimal(cands, mins, budget, Chosen(Extract(Vars(cands, mins), xs, |mins|, |xs|)))
  {
    var vars := Vars(cands, mins);
    ExtractFeasible(cands, mins, instances, budget, xs);
    var a := Chosen(Extract(vars, xs, |mins|, |xs|));
    forall b | Feasible(cands, mins, budget, b)
      ensures Total(cands, b) <= Total(cands, a)
    {
      EncodeFeasible(cands, mins, instances, budget, b);
    }
  }

  /** An optimal choice, encoded, is an optimal solution of the program. */
  lemma EncodeOptimal(cands: seq<Candidate>, mins: seq<nat>, instances: nat, budget: nat, a: Choice)
    requires IndicesBelow(cands, instances)
    requires Optimal(cands, mins, budget, a)
    ensures IlpOptimal(cands, mins, instances, budget, Vars(cands, mins), Encode(Vars(cands, mins), a))
  {
    var vars := Vars(cands, mins);
    EncodeFeasible(cands, mins, instances, budget, a);
    forall ys | IlpFeasible(cands, mins, instances, budget, vars, ys)
      ensures Objective(cands, vars, ys) <= Objective(cands, vars, Encode(vars, a))
    {
      ExtractFeasible(cands, mins, instances, budget, ys);
    }
  }
}
