/** The checks made on the inputs before any solve is attempted. */
module Validation {

  import opened Seqs
  import opened Tables
  import opened Inventory
  import opened Candidates
  import opened Assignment

  /** The three input problems the optimizer reports. */
  datatype Issue =
    | NotEnoughParts      // fewer parts than three per slot
    | ChipsVeryLow        // fewer chips than slots
    | RequirementTooHigh  // some minimum above the ceiling

  /** The ceiling a minimum may not exceed, in tenths: every base value
      summed, times the largest multiplier (4300 * 5.0). */
  function RequirementCeiling10(): nat
  {
    Ceiling10(AllParts, MultiplierTable)
  }

  /** Base values of the listed parts summed, times the table's largest
      multiplier. */
  function Ceiling10(parts: seq<PartType>, table: seq<MultEntry>): nat
    requires |table| > 0
  {
    SumBase(parts) * MaxMult10(table)
  }

  /** Whether some minimum exceeds the ceiling. */
  function AnyAbove(mins: seq<nat>, ceiling10: nat): (r: bool)
    ensures r <==> exists s :: 0 <= s < |mins| && 10 * mins[s] > ceiling10
  {
    if |mins| == 0 then false
    else if 10 * mins[0] > ceiling10 then true
    else
      var rest := AnyAbove(mins[1..], ceiling10);
      assert forall s :: 1 <= s < |mins| ==> mins[s] == mins[1..][s - 1];
      rest
  }

  /** The issues found with an inventory, a chip budget and the slots'
      minimums, in the order the optimizer lists them. */
  function Validate(inv: Inventory, chips: nat, mins: seq<nat>): (issues: seq<Issue>)
    ensures NotEnoughParts in issues <==> TotalParts(inv) < PartsPerTb * |mins|
    ensures ChipsVeryLow in issues <==> chips < |mins|
    ensures RequirementTooHigh in issues <==> exists s :: 0 <= s < |mins| && 10 * mins[s] > RequirementCeiling10()
    ensures Distinct(issues)
  {
    var short := TotalParts(inv) < PartsPerTb * |mins|;
    var low := chips < |mins|;
    var high := AnyAbove(mins, RequirementCeiling10());
    IssueList(short, low, high)
  }

  /** The issues raised by the three checks, in the order they are made. */
  function IssueList(short: bool, low: bool, high: bool): (r: seq<Issue>)
    ensures NotEnoughParts in r <==> short
    ensures ChipsVeryLow in r <==> low
    ensures RequirementTooHigh in r <==> high
    ensures Distinct(r)
  {
    (if short then [NotEnoughParts] else [])
    + (if low then [ChipsVeryLow] else [])
    + (if high then [RequirementTooHigh] else [])
  }

  /** The ceiling is 21500 whole resonance. */
  lemma CeilingValue()
    ensures RequirementCeiling10() == 215000
  {
    BaseValueFacts();
    MaxMultiplierFacts();
    var b := SumBase(AllParts);
    var m := MaxMult10(MultiplierTable);
    assert Ceiling10(AllParts, MultiplierTable) == b * m;
  }

  /** Every candidate's indices lie in the inventory's instance list. */
  lemma CandidatesIndexInstances(inv: Inventory)
    ensures IndicesBelow(CandidatesOf(inv), TotalParts(inv))
  {
  }

  /** When the inventory is flagged as too small, no choice is feasible. */
  lemma NotEnoughPartsInfeasible(inv: Inventory, chips: nat, mins: seq<nat>, a: Choice)
    requires NotEnoughParts in Validate(inv, chips, mins)
    ensures !Feasible(CandidatesOf(inv), mins, chips, a)
  {
    if Feasible(CandidatesOf(inv), mins, chips, a) {
      CandidatesIndexInstances(inv);
      Pigeonhole(CandidatesOf(inv), mins, chips, a, TotalParts(inv));
    }
  }

  /** When a minimum is flagged as too high, no choice is feasible: no
      candidate reaches it. */
  lemma TooHighInfeasible(inv: Inventory, chips: nat, mins: seq<nat>, a: Choice)
    requires RequirementTooHigh in Validate(inv, chips, mins)
    ensures !Feasible(CandidatesOf(inv), mins, chips, a)
  {
    CeilingValue();
    var s :| 0 <= s < |mins| && 10 * mins[s] > RequirementCeiling10();
    var cands := CandidatesOf(inv);
    forall c | c in cands
      ensures !Eligible(c, mins[s])
    {
      ResonanceCeiling(c, Expand(inv));
    }
    NoEligibleCandidate(cands, mins, chips, a, s);
  }

  /** The ceiling is not tight: a minimum of 16000 is not flagged, yet no
      candidate reaches it (the best group is 3 * 1000 * 5.0 = 15000). */
  lemma CeilingNotTight(inv: Inventory, chips: nat, a: Choice)
    ensures RequirementTooHigh !in Validate(inv, chips, [16000])
    ensures !Feasible(CandidatesOf(inv), [16000], chips, a)
  {
    CeilingValue();
    var cands := CandidatesOf(inv);
    forall c | c in cands
      ensures !Eligible(c, 16000)
    {
      ResonanceCeiling(c, Expand(inv));
    }
    NoEligibleCandidate(cands, [16000], chips, a, 0);
  }
}
