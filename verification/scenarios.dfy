/** Worked cases of the Solve handler on small inventories. Each scenario
    takes its inventory as a parameter pinned down by its precondition, so
    that the candidate list is reasoned about through its contract rather
    than evaluated entry by entry. */
module Scenarios {

  import opened Tables
  import opened Inventory
  import opened Combinations
  import opened Candidates
  import opened Assignment
  import opened Validation
  import opened Optimizer

  /** Two E parts and two R2 parts. */
  const EsAndR2s: Inventory := map[E := 2, R2 := 2]

  /** The part types after R2 in table order. */
  const LowParts: seq<PartType> := [R1, R, Y3, Y2, Y1, Y]

  lemma {:induction false} ExpandOverNone(inv: Inventory, ps: seq<PartType>)
    requires forall k :: 0 <= k < |ps| ==> ps[k] !in inv
    ensures ExpandOver(inv, ps) == []
    ensures TotalOver(inv, ps) == 0
  {
    if |ps| > 0 {
      ExpandOverNone(inv, ps[1..]);
    }
  }

  lemma ExpandOverCons(inv: Inventory, p: PartType, ps: seq<PartType>)
    ensures ExpandOver(inv, [p] + ps) == Repeat(p, Count(inv, p)) + ExpandOver(inv, ps)
    ensures TotalOver(inv, [p] + ps) == Count(inv, p) + TotalOver(inv, ps)
  {
    assert ([p] + ps)[1..] == ps;
  }

  lemma AllPartsSplit()
    ensures AllParts == [E] + ([R4] + ([R3] + ([R2] + LowParts)))
  {
  }

  lemma ExpandLow()
    ensures ExpandOver(EsAndR2s, [R2] + LowParts) == [R2, R2]
  {
    ExpandOverNone(EsAndR2s, LowParts);
    ExpandOverCons(EsAndR2s, R2, LowParts);
    assert Repeat(R2, 2) == [R2, R2];
  }

  lemma ExpandMiddle()
    ensures ExpandOver(EsAndR2s, [R4] + ([R3] + ([R2] + LowParts))) == [R2, R2]
  {
    ExpandLow();
    ExpandOverCons(EsAndR2s, R3, [R2] + LowParts);
    ExpandOverCons(EsAndR2s, R4, [R3] + ([R2] + LowParts));
  }

  /** The instance list of the two-E, two-R2 inventory, in table order. */
  lemma ExpandEsAndR2s(inv: Inventory)
    requires inv == EsAndR2s
    ensures Expand(inv) == [E, E, R2, R2]
    ensures TotalParts(inv) == 4
  {
    ExpandOverEsAndR2s();
    assert Expand(inv) == ExpandOver(inv, AllParts);
  }

  lemma ExpandOverEsAndR2s()
    ensures ExpandOver(EsAndR2s, AllParts) == [E, E, R2, R2]
  {
    ExpandMiddle();
    ExpandOverCons(EsAndR2s, E, [R4] + ([R3] + ([R2] + LowParts)));
    assert Repeat(E, 2) == [E, E];
    AllPartsSplit();
  }

  /** An inventory of n parts of type E only holds n parts. */
  lemma OnlyEsTotal(inv: Inventory, n: nat)
    requires inv == map[E := n]
    ensures TotalParts(inv) == n
  {
    var mid := [R4] + ([R3] + ([R2] + LowParts));
    OnlyEsRest(inv, mid);
    ExpandOverCons(inv, E, mid);
    AllPartsSplit();
  }

  lemma OnlyEsRest(inv: Inventory, ps: seq<PartType>)
    requires forall p :: p in inv ==> p == E
    requires E !in ps
    ensures TotalOver(inv, ps) == 0
  {
    ExpandOverNone(inv, ps);
  }

  /** A group drawn from E, E, R2, R2 has base at most 1000 + 1000 + 550. */
  lemma SmallGroupBase(c: Candidate)
    requires WellFormed(c, [E, E, R2, R2], MultiplierTable)
    ensures BaseValue(c.parts[0]) + BaseValue(c.parts[1]) + BaseValue(c.parts[2]) <= 2550
  {
    BaseValueFacts();
    assert c.parts[2] == R2;
  }

  /** Spending at most `limit` chips buys at most the multiplier of the
      table row for `limit`. */
  lemma ChipsCapMultiplier(chips: nat, limit: MultEntry)
    requires HasKey(MultiplierTable, chips) && limit in MultiplierTable && chips <= limit.chips
    ensures MultiplierOf(MultiplierTable, chips) <= limit.mult10
  {
    MultiplierTableFacts();
    var m := MultiplierOf(MultiplierTable, chips);
    MonotoneEntries(MultiplierTable, MultEntry(chips, m), limit);
  }

  /** A single candidate within the budget and reaching the minimum fills a
      single slot on its own. */
  lemma SingleSlotFeasible(cands: seq<Candidate>, minReq: nat, budget: nat, idx: nat)
    requires idx < |cands| && cands[idx].chips <= budget && Eligible(cands[idx], minReq)
    ensures Feasible(cands, [minReq], budget, [idx])
    ensures Total(cands, [idx]) == cands[idx].resonance10
  {
    assert ChipsUsed(cands, [idx]) == SlotSum(cands, [idx], ChipCost, 0) + cands[idx].chips;
    assert Total(cands, [idx]) == SlotSum(cands, [idx], Resonance, 0) + cands[idx].resonance10;
  }

  /** A listed group within the budget and reaching the minimum fills a
      single slot on its own. */
  lemma SingleSlotFromMember(cands: seq<Candidate>, c: Candidate, minReq: nat, budget: nat)
    requires c in cands && c.chips <= budget && Eligible(c, minReq)
    ensures exists a :: Feasible(cands, [minReq], budget, a) && Total(cands, a) == c.resonance10
  {
    var idx :| 0 <= idx < |cands| && cands[idx] == c;
    SingleSlotFeasible(cands, minReq, budget, idx);
  }

  /** With nothing flagged, when a single slot's best listed group within
      the budget resonates v and some feasible assignment reaches v, the
      report's total is exactly v. */
  lemma SingleSlotOptimum(cands: seq<Candidate>, minReq: nat, instances: nat, budget: nat, v: nat)
    requires IndicesBelow(cands, instances)
    requires forall c :: c in cands ==> HasKey(MultiplierTable, c.chips)
    requires exists a :: Feasible(cands, [minReq], budget, a) && Total(cands, a) == v
    requires forall c :: c in cands && c.chips <= budget ==> c.resonance10 <= v
    ensures Decide([], cands, [minReq], instances, budget).BestFound?
    ensures Decide([], cands, [minReq], instances, budget).report.total10 == v
    ensures Decide([], cands, [minReq], instances, budget).report.rows[0].tb == 1
  {
    var out := Decide([], cands, [minReq], instances, budget);
    var configs := out.report.configs;
    assert |configs| == 1;
    assert configs[..0] == [];
    assert ChipsOf(configs) == configs[0].chips;
    assert ResonanceOf(configs) == configs[0].resonance10;
  }

  /** A generated group's chips and resonance bound a single-slot
      assignment's. */
  lemma SingleSlotTotals(cands: seq<Candidate>, minReq: nat, budget: nat, a: Choice)
    requires Feasible(cands, [minReq], budget, a)
    ensures cands[a[0]].chips <= budget
    ensures Total(cands, a) == cands[a[0]].resonance10
  {
    assert ChipsUsed(cands, a) == SlotSum(cands, a, ChipCost, 0) + cands[a[0]].chips;
    assert Total(cands, a) == SlotSum(cands, a, Resonance, 0) + cands[a[0]].resonance10;
  }

  /** Every combination paired with every table row is generated. */
  lemma Generated(inv: Inventory, t: Triple, e: MultEntry)
    requires IsCombination(t, TotalParts(inv)) && e in MultiplierTable
    ensures MakeCandidate(Expand(inv), t, e) in CandidatesOf(inv)
  {
    MultiplierTableFacts();
  }

  /** A group whose base is at most `baseCap` and whose chips are at most a
      table row's resonates at most `baseCap` times that row's multiplier. */
  lemma GroupBound(c: Candidate, inst: seq<PartType>, baseCap: nat, limit: MultEntry)
    requires WellFormed(c, inst, MultiplierTable)
    requires BaseValue(c.parts[0]) + BaseValue(c.parts[1]) + BaseValue(c.parts[2]) <= baseCap
    requires limit in MultiplierTable && c.chips <= limit.chips
    ensures c.resonance10 <= baseCap * limit.mult10
  {
    ChipsCapMultiplier(c.chips, limit);
    var base := BaseValue(c.parts[0]) + BaseValue(c.parts[1]) + BaseValue(c.parts[2]);
    MulBound(base, MultiplierOf(MultiplierTable, c.chips), baseCap, limit.mult10);
  }

  /** E, E, R2 at 9 chips resonates (1000 + 1000 + 550) * 2.0 = 5100.0. */
  lemma BestGroupValue(inst: seq<PartType>)
    requires inst == [E, E, R2, R2]
    ensures MakeCandidate(inst, Triple(0, 1, 2), MultEntry(9, 20)).resonance10 == 51000
  {
    SumBaseThree(E, E, R2);
  }

  /** E, E, R2 with 9 chips fills one slot with a minimum of 0 within a
      budget of 9. */
  lemma BestGroupFeasible(inv: Inventory)
    requires Expand(inv) == [E, E, R2, R2]
    ensures exists a :: Feasible(CandidatesOf(inv), [0], 9, a) && Total(CandidatesOf(inv), a) == 51000
  {
    var inst := Expand(inv);
    var cands := CandidatesOf(inv);
    var e := MultEntry(9, 20);
    assert e in MultiplierTable;
    Generated(inv, Triple(0, 1, 2), e);
    BestGroupValue(inst);
    SingleSlotFromMember(cands, MakeCandidate(inst, Triple(0, 1, 2), e), 0, 9);
  }

  /** No group from E, E, R2, R2 within 9 chips exceeds 5100.0. */
  lemma BestGroupBound(inv: Inventory, c: Candidate)
    requires Expand(inv) == [E, E, R2, R2]
    requires c in CandidatesOf(inv) && c.chips <= 9
    ensures c.resonance10 <= 51000
  {
    SmallGroupBase(c);
    GroupBound(c, Expand(inv), 2550, MultEntry(9, 20));
  }

  /** A base of at most 2550 times a multiplier of at most 2.0 reaches
      5100.0 only with both at their caps. */
  lemma ProductAtCaps(base: nat, m: nat)
    requires base <= 2550 && m <= 20 && base * m == 51000
    ensures base == 2550 && m == 20
  {
    if m < 20 {
      MulBound(base, m, 2550, 19);
    }
    if base < 2550 {
      MulBound(base, m, 2549, 20);
    }
  }

  /** The only groups from E, E, R2, R2 within 9 chips that reach 5100.0
      are E, E, R2 at multiplier 2.0. */
  lemma BestGroupShape(inst: seq<PartType>, c: Candidate)
    requires inst == [E, E, R2, R2]
    requires WellFormed(c, inst, MultiplierTable) && c.chips <= 9 && c.resonance10 == 51000
    ensures c.parts == [E, E, R2]
    ensures MultiplierOf(MultiplierTable, c.chips) == 20
  {
    SmallGroupBase(c);
    ChipsCapMultiplier(c.chips, MultEntry(9, 20));
    var base := BaseValue(c.parts[0]) + BaseValue(c.parts[1]) + BaseValue(c.parts[2]);
    ProductAtCaps(base, MultiplierOf(MultiplierTable, c.chips));
    BaseValueFacts();
    assert c.parts[2] == R2;
  }

  /** The single row of a best report for E, E, R2, R2 at 9 chips. */
  lemma BestRow(inv: Inventory, rep: Report)
    requires Expand(inv) == [E, E, R2, R2]
    requires BestConfigs(CandidatesOf(inv), [0], 9, rep.configs)
    requires rep.total10 == ResonanceOf(rep.configs) == 51000
    requires |rep.rows| == 1 && RowFits(rep.rows[0], 0, rep.configs[0])
    ensures rep.rows[0].parts == [E, E, R2]
    ensures rep.rows[0].mult10 == 20
    ensures rep.rows[0].resonance10 == 51000
  {
    var c := rep.configs[0];
    assert rep.configs[..0] == [];
    assert ChipsOf(rep.configs) == c.chips;
    assert ResonanceOf(rep.configs) == c.resonance10;
    assert WellFormed(c, Expand(inv), MultiplierTable);
    BestGroupShape(Expand(inv), c);
  }

  /** With E, E, R2, R2, 9 chips and one slot of minimum 0, the best
      configuration is E, E, R2 at 9 chips (multiplier 2.0), total 5100.0. */
  lemma ScenarioEsAndR2s(inv: Inventory)
    requires inv == EsAndR2s
    ensures Solve(inv, 9, [0]).BestFound?
    ensures Solve(inv, 9, [0]).report.total10 == 51000
    ensures Solve(inv, 9, [0]).report.rows[0].tb == 1
    ensures Solve(inv, 9, [0]).report.rows[0].parts == [E, E, R2]
    ensures Solve(inv, 9, [0]).report.rows[0].mult10 == 20
  {
    ExpandEsAndR2s(inv);
    EsAndR2sValid(inv);
    BestGroupFeasible(inv);
    forall c | c in CandidatesOf(inv) && c.chips <= 9
      ensures c.resonance10 <= 51000
    {
      BestGroupBound(inv, c);
    }
    CandidatesKeyed(inv);
    SingleSlotOptimum(CandidatesOf(inv), 0, TotalParts(inv), 9, 51000);
    BestRow(inv, Solve(inv, 9, [0]).report);
  }

  /** Four parts, 9 chips and one slot of minimum 0 raise no issue. */
  lemma EsAndR2sValid(inv: Inventory)
    requires TotalParts(inv) == 4
    ensures Validate(inv, 9, [0]) == []
  {
  }

  /** Two parts cannot fill a slot of three: the input is refused. */
  lemma ScenarioTooFewParts(inv: Inventory)
    requires inv == map[E := 2]
    ensures Solve(inv, 5, [0]).InputRejected?
    ensures NotEnoughParts in Solve(inv, 5, [0]).issues
  {
    OnlyEsTotal(inv, 2);
  }

  /** A minimum of 30000 is above the ceiling of 21500: the input is refused. */
  lemma ScenarioTooHigh(inv: Inventory)
    ensures Solve(inv, 9, [30000]).InputRejected?
    ensures RequirementTooHigh in Solve(inv, 9, [30000]).issues
  {
    CeilingValue();
  }

  /** Three E parts and a single chip reach at most 3000 * 1.2 = 3600, so a
      minimum of 3700 passes validation yet no configuration is valid. */
  lemma ScenarioOutOfReach(inv: Inventory)
    requires inv == map[E := 3]
    ensures Solve(inv, 1, [3700]).NoValidConfiguration?
  {
    OnlyEsTotal(inv, 3);
    CeilingValue();
    assert Validate(inv, 1, [3700]) == [];
    var cands := CandidatesOf(inv);
    forall b | Feasible(cands, [3700], 1, b)
      ensures false
    {
      SingleSlotTotals(cands, 3700, 1, b);
      var c := cands[b[0]];
      assert c in cands;
      BaseValueFacts();
      GroupBound(c, Expand(inv), 3000, MultEntry(1, 12));
    }
  }
}
