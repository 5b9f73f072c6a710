/** The solve step end to end: validate the inputs, build the candidates and
    the integer program, take an optimal 0/1 solution, read it back into one
    group per slot and tabulate the result. */
module Optimizer {

  import opened Wrappers
  import opened Seqs
  import opened Tables
  import opened Inventory
  import opened Candidates
  import opened Assignment
  import opened Ilp
  import opened Search
  import opened Validation

  /** One line of the result table: the slot's label number (`TB {i+1}`), the
      parts used, the multiplier in tenths, the chips spent and the resonance
      in tenths. */
  datatype Row = Row(tb: nat, parts: seq<PartType>, mult10: nat, chips: nat, resonance10: nat)

  /** The chosen group of every slot (`tb_configs`), the table rows, and the
      total resonance in tenths (`total_resonance_sum`). */
  datatype Report = Report(configs: seq<Candidate>, rows: seq<Row>, total10: nat)

  /** What pressing Solve leads to. */
  datatype Outcome =
    | InputRejected(issues: seq<Issue>)  // the inputs were flagged; nothing is solved
    | NoValidConfiguration               // the program has no feasible solution
    | BestFound(report: Report)

  /** Total resonance (tenths) of a list of groups. */
  function ResonanceOf(configs: seq<Candidate>): nat
  {
    if |configs| == 0 then 0 else ResonanceOf(configs[..|configs| - 1]) + configs[|configs| - 1].resonance10
  }

  /** Total chips spent by a list of groups. */
  function ChipsOf(configs: seq<Candidate>): nat
  {
    if |configs| == 0 then 0 else ChipsOf(configs[..|configs| - 1]) + configs[|configs| - 1].chips
  }

  /** Row `row` displays group `c` as the slot with index s. */
  predicate RowFits(row: Row, s: nat, c: Candidate)
  {
    && row.tb == s + 1
    && row.parts == c.parts
    && row.chips == c.chips
    && HasKey(MultiplierTable, row.chips)
    && row.mult10 == MultiplierOf(MultiplierTable, row.chips)
    && row.resonance10 == c.resonance10
  }

  /** The result loop from group i on, with the rows and running sum of the
      groups before it. */
  function Tabulate(configs: seq<Candidate>, i: nat, rows: seq<Row>, sum: nat): (rep: Report)
    requires i <= |configs| && |rows| == i
    requires forall c :: c in configs ==> HasKey(MultiplierTable, c.chips)
    requires forall s :: 0 <= s < i ==> RowFits(rows[s], s, configs[s])
    requires sum == ResonanceOf(configs[..i])
    ensures rep.configs == configs
    ensures |rep.rows| == |configs|
    ensures forall s :: 0 <= s < |configs| ==> RowFits(rep.rows[s], s, configs[s])
    ensures rep.total10 == ResonanceOf(configs)
    decreases |configs| - i
  {
    if i == |configs| then
      assert configs[..i] == configs;
      Report(configs, rows, sum)
    else
      var c := configs[i];
      assert c in configs;
      var row := Row(i + 1, c.parts, MultiplierOf(MultiplierTable, c.chips), c.chips, c.resonance10);
      assert configs[..i + 1][..i] == configs[..i];
      Tabulate(configs, i + 1, rows + [row], sum + c.resonance10)
  }

  /** The result table of a list of groups, one row per slot in slot order,
      and the total accumulated alongside. */
  function ReportOf(configs: seq<Candidate>): (rep: Report)
    requires forall c :: c in configs ==> HasKey(MultiplierTable, c.chips)
    ensures rep.configs == configs
    ensures |rep.rows| == |configs|
    ensures forall s :: 0 <= s < |configs| ==> RowFits(rep.rows[s], s, configs[s])
    ensures rep.total10 == ResonanceOf(configs)
  {
    Tabulate(configs, 0, [], 0)
  }

  /** Each row's resonance is its parts' base values summed times the
      multiplier it displays. */
  lemma RowScore(inst: seq<PartType>, row: Row, s: nat, c: Candidate)
    requires WellFormed(c, inst, MultiplierTable)
    requires RowFits(row, s, c)
    ensures |row.parts| == PartsPerTb
    ensures row.resonance10 == SumBase(row.parts) * row.mult10
  {
    SumBaseThree(c.parts[0], c.parts[1], c.parts[2]);
    assert c.parts == [c.parts[0], c.parts[1], c.parts[2]];
  }

  /** The groups a choice names, slot by slot. */
  function Picks(cands: seq<Candidate>, a: Choice): (configs: seq<Candidate>)
    requires InRange(cands, a)
    ensures |configs| == |a|
    ensures forall s :: 0 <= s < |a| ==> configs[s] == cands[a[s]]
  {
    seq(|a|, s requires 0 <= s < |a| => cands[a[s]])
  }

  /** Summing the picked groups gives the choice's slot sums. */
  lemma {:induction false} PicksSums(cands: seq<Candidate>, a: Choice, n: nat)
    requires InRange(cands, a) && n <= |a|
    ensures ResonanceOf(Picks(cands, a)[..n]) == SlotSum(cands, a, Resonance, n)
    ensures ChipsOf(Picks(cands, a)[..n]) == SlotSum(cands, a, ChipCost, n)
  {
    if n > 0 {
      PicksSums(cands, a, n - 1);
      assert Picks(cands, a)[..n][..n - 1] == Picks(cands, a)[..n - 1];
    }
  }

  /** Groups that may be reported: one per slot, each from the candidate list
      and meeting its slot's minimum, no part instance shared, chips within
      the budget, and a total no feasible assignment beats. */
  ghost predicate BestConfigs(cands: seq<Candidate>, mins: seq<nat>, budget: nat, configs: seq<Candidate>)
  {
    && |configs| == |mins|
    && (forall s :: 0 <= s < |mins| ==> configs[s] in cands && Eligible(configs[s], mins[s]))
    && (forall s, t :: 0 <= s < t < |mins| ==> configs[s].idxs.Indices() !! configs[t].idxs.Indices())
    && ChipsOf(configs) <= budget
    && (forall a :: Feasible(cands, mins, budget, a) ==> Total(cands, a) <= ResonanceOf(configs))
  }

  /** Reading a feasible 0/1 solution back (for every decision set to 1, its
      slot's entry of `tb_configs` becomes that decision's candidate): every slot gets a group, the groups are
      eligible and disjoint, their chips fit, and their resonance sums to the
      program's objective. */
  function ReadBack(cands: seq<Candidate>, mins: seq<nat>, instances: nat, budget: nat, xs: seq<bool>): (configs: seq<Candidate>)
    requires IndicesBelow(cands, instances)
    requires IlpFeasible(cands, mins, instances, budget, Vars(cands, mins), xs)
    ensures |configs| == |mins|
    ensures forall s :: 0 <= s < |mins| ==> configs[s] in cands && Eligible(configs[s], mins[s])
    ensures forall s, t :: 0 <= s < t < |mins| ==> configs[s].idxs.Indices() !! configs[t].idxs.Indices()
    ensures ChipsOf(configs) <= budget
    ensures ResonanceOf(configs) == Objective(cands, Vars(cands, mins), xs)
  {
    ExtractFeasible(cands, mins, instances, budget, xs);
    var a := Chosen(Extract(Vars(cands, mins), xs, |mins|, |xs|));
    PicksSums(cands, a, |a|);
    assert Picks(cands, a)[..|a|] == Picks(cands, a);
    Picks(cands, a)
  }

  /** Reading back an optimal solution gives groups no feasible assignment
      beats. */
  lemma ReadBackOptimal(cands: seq<Candidate>, mins: seq<nat>, instances: nat, budget: nat, xs: seq<bool>)
    requires IndicesBelow(cands, instances)
    requires IlpOptimal(cands, mins, instances, budget, Vars(cands, mins), xs)
    ensures BestConfigs(cands, mins, budget, ReadBack(cands, mins, instances, budget, xs))
  {
    var vars := Vars(cands, mins);
    var configs := ReadBack(cands, mins, instances, budget, xs);
    forall a | Feasible(cands, mins, budget, a)
      ensures Total(cands, a) <= ResonanceOf(configs)
    {
      EncodeFeasible(cands, mins, instances, budget, a);
    }
  }

  /** The program built from a candidate list, solved and read back: the
      report of an optimal solution, or nothing when no assignment is
      feasible. */
  function SolveProgram(cands: seq<Candidate>, mins: seq<nat>, instances: nat, budget: nat): (r: Option<Report>)
    requires IndicesBelow(cands, instances)
    requires forall c :: c in cands ==> HasKey(MultiplierTable, c.chips)
    ensures r.None? <==> forall a :: !Feasible(cands, mins, budget, a)
    ensures r.Some? ==>
      && BestConfigs(cands, mins, budget, r.value.configs)
      && r.value.total10 == ResonanceOf(r.value.configs)
      && |r.value.rows| == |mins|
      && forall s :: 0 <= s < |mins| ==> RowFits(r.value.rows[s], s, r.value.configs[s])
  {
    match ReferenceSolve(cands, mins, budget)
    case None => None
    case Some(best) =>
      var xs := Encode(Vars(cands, mins), best);
      EncodeOptimal(cands, mins, instances, budget, best);
      var configs := ReadBack(cands, mins, instances, budget, xs);
      ReadBackOptimal(cands, mins, instances, budget, xs);
      Some(ReportOf(configs))
  }

  /** Every generated candidate's chip cost is a row of the table. */
  lemma CandidatesKeyed(inv: Inventory)
    ensures IndicesBelow(CandidatesOf(inv), TotalParts(inv))
    ensures forall c :: c in CandidatesOf(inv) ==> HasKey(MultiplierTable, c.chips)
  {
    CandidatesIndexInstances(inv);
  }

  /** What follows from the issues found and the program: refusal when there
      are issues, otherwise the solved program's report or its absence. */
  function Decide(issues: seq<Issue>, cands: seq<Candidate>, mins: seq<nat>, instances: nat, budget: nat): (out: Outcome)
    requires IndicesBelow(cands, instances)
    requires forall c :: c in cands ==> HasKey(MultiplierTable, c.chips)
    ensures out.InputRejected? <==> issues != []
    ensures out.InputRejected? ==> out.issues == issues
    ensures out.NoValidConfiguration? <==> issues == [] && forall a :: !Feasible(cands, mins, budget, a)
    ensures out.BestFound? ==>
      && BestConfigs(cands, mins, budget, out.report.configs)
      && out.report.total10 == ResonanceOf(out.report.configs)
      && |out.report.rows| == |mins|
      && forall s :: 0 <= s < |mins| ==> RowFits(out.report.rows[s], s, out.report.configs[s])
  {
    if issues != [] then InputRejected(issues)
    else
      match SolveProgram(cands, mins, instances, budget)
      case None => NoValidConfiguration
      case Some(rep) => BestFound(rep)
  }

  /** The Solve handler: a flagged input is refused; otherwise the program is
      built from the inventory and solved, and its optimum is read back and
      tabulated, or no valid configuration is reported. */
  function Solve(inv: Inventory, chips: nat, mins: seq<nat>): (out: Outcome)
    ensures out.InputRejected? <==> Validate(inv, chips, mins) != []
    ensures out.InputRejected? ==> out.issues == Validate(inv, chips, mins)
    ensures out.NoValidConfiguration? <==>
      Validate(inv, chips, mins) == [] && forall a :: !Feasible(CandidatesOf(inv), mins, chips, a)
    ensures out.BestFound? ==>
      && BestConfigs(CandidatesOf(inv), mins, chips, out.report.configs)
      && out.report.total10 == ResonanceOf(out.report.configs)
      && |out.report.rows| == |mins|
      && forall s :: 0 <= s < |mins| ==> RowFits(out.report.rows[s], s, out.report.configs[s])
  {
    CandidatesKeyed(inv);
    Decide(Validate(inv, chips, mins), CandidatesOf(inv), mins, TotalParts(inv), chips)
  }

  /** Any optimal solution the solver might return reads back to groups
      with the same total as the report SolveProgram gives. */
  lemma SolverIndependent(cands: seq<Candidate>, mins: seq<nat>, instances: nat, budget: nat, xs: seq<bool>)
    requires IndicesBelow(cands, instances)
    requires forall c :: c in cands ==> HasKey(MultiplierTable, c.chips)
    requires IlpOptimal(cands, mins, instances, budget, Vars(cands, mins), xs)
    ensures SolveProgram(cands, mins, instances, budget).Some?
    ensures ResonanceOf(ReadBack(cands, mins, instances, budget, xs)) == SolveProgram(cands, mins, instances, budget).value.total10
  {
    ExtractFeasible(cands, mins, instances, budget, xs);
    var a := Chosen(Extract(Vars(cands, mins), xs, |mins|, |xs|));
    var mine := ReadBack(cands, mins, instances, budget, xs);
    var best := ReferenceSolve(cands, mins, budget).value;
    EncodeFeasible(cands, mins, instances, budget, best);
    assert Total(cands, best) <= ResonanceOf(mine);
  }
}
