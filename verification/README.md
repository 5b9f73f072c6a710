# TB Resonance Optimizer — verified model of the solve core

The TB Resonance Optimizer chooses, for each of several TBs (slots), a group
of three parts and a chip spend. It takes an inventory of parts (ten types E,
R4, …, Y, each with a base value) and a chip budget. Each group's resonance
is the sum of its parts' base values times the multiplier that its chip
spend buys. Every TB must reach its own minimum resonance. No part instance
may be used twice, the chips spent must fit the budget, and the total
resonance is maximised. The optimizer builds this as a 0/1 integer program
and hands it to an ILP solver. This project models the core behind the
Solve button in Dafny:

- **`Tables`**: the part base values, the 21-row chip → multiplier table and
  the three-parts-per-TB constant, with their facts. Multipliers are held
  in tenths (1.2x is 12), so every resonance is an exact integer number of
  tenths.
- **`Inventory`**: expansion of the per-type counts into the flat list of
  part instances.
- **`Combinations`**: enumeration of index triples in lexicographic order
  and the binomial count C(N, 3).
- **`Candidates`**: generation of one candidate per (index triple, table
  row), and the score formula.
- **`Assignment`**: the slot-by-slot view of a solution (a candidate index
  per TB), with feasibility, optimality, disjointness and the infeasibility
  lemmas (pigeonhole, a slot nobody reaches).
- **`Ilp`**: the integer program as the source states it. It has one 0/1
  variable per eligible (candidate, TB) pair, the three constraint
  families and the objective. It also models the read-back loop that fills
  `tb_configs`. The two views are proved equivalent in both directions:
  feasible maps to feasible, optimal to optimal, and the objective equals
  the total.
- **`Search`**: an exhaustive reference search with a proved optimality
  postcondition. It stands in for the ILP solver.
- **`Validation`**: the three pre-solve checks and what they imply.
- **`Optimizer`**: `Solve` end to end — refuse flagged input; otherwise
  build the program, take an optimal solution, read it back, and tabulate
  the rows and the total.
- **`Scenarios`**: worked cases on small inventories.

## Model

| member | source | states |
|---|---|---|
| Tables.BaseValueFacts | TB-Resonance-Optimizer.py:30-33 | the ten base values sum to 4300 and none exceeds 1000 |
| Tables.MultiplierTableFacts | TB-Resonance-Optimizer.py:34-38 | the multiplier table has 21 rows, its chip costs strictly increase, its multipliers never decrease as cost grows, and every multiplier lies between 1.0 and 5.0 |
| Tables.MaxMultiplierFacts | TB-Resonance-Optimizer.py:154 | the largest multiplier in `MULTIPLIER_DATA` is 5.0 |
| Tables.MaxMult10 | TB-Resonance-Optimizer.py:154 | the maximum is an upper bound of every row's multiplier and is attained by some row |
| Tables.MultiplierOf | TB-Resonance-Optimizer.py:216 | looking up a chip cost present in the table yields a multiplier of a row with that cost |
| Tables.MultiplierOfEntry | TB-Resonance-Optimizer.py:216 | in a table with unique costs, the lookup of a row's cost gives back exactly that row's multiplier |
| Tables.StepsGiveMonotone | TB-Resonance-Optimizer.py:34-38 | adjacent rows increasing in cost and non-decreasing in multiplier make the whole table so |
| Tables.MonotoneEntries | TB-Resonance-Optimizer.py:34-38 | in a monotone table, spending fewer chips never buys a larger multiplier |
| Tables.AllPartsComplete | TB-Resonance-Optimizer.py:30-33 | the list of part types contains every part type |
| Inventory.Expand | TB-Resonance-Optimizer.py:163-167 | the instance list has one entry per counted part (length = sum of counts), and each type occurs exactly its count of times |
| Inventory.ExpandOverFacts | TB-Resonance-Optimizer.py:163-166 | expanding a duplicate-free list of types gives each listed type its count and any other type none |
| Inventory.Repeat | TB-Resonance-Optimizer.py:165-166 | the inner loop appends exactly `count` copies of the type |
| Combinations.Combinations3Facts | TB-Resonance-Optimizer.py:175 | the enumeration yields exactly the strictly increasing triples below N, each once, C(N, 3) of them |
| Combinations.ChooseThree | TB-Resonance-Optimizer.py:175 | 6 · C(N, 3) = N(N−1)(N−2), so fewer than three instances give no triple |
| Combinations.CombinationSize | TB-Resonance-Optimizer.py:175-176 | a combination names three different instances, all below N |
| Candidates.Generate | TB-Resonance-Optimizer.py:175-186 | C(N, 3) × (table rows) candidates. Every one is well formed: its indices are a combination, its parts are the instance types at those indices, its cost is a table row, and its resonance is the parts' base sum times that row's multiplier. Every (triple, row) pair appears, and no candidate repeats |
| Candidates.CandidatesOf | TB-Resonance-Optimizer.py:173-186 | for an inventory of N parts the candidate list has C(N, 3) × 21 entries, all well formed |
| Candidates.CandidatesForFacts | TB-Resonance-Optimizer.py:176-186 | the nested loop over triples and table rows emits (number of triples) × (number of rows) candidates, exactly the (triple, row) pairs, each once |
| Candidates.MakeCandidateWellFormed | TB-Resonance-Optimizer.py:177-185 | a candidate built from a combination and a table row satisfies the score formula and the parts-at-indices relation |
| Candidates.ResonanceCeiling | TB-Resonance-Optimizer.py:178-180 | no generated candidate exceeds 3 × 1000 × 5.0 = 15000 |
| Ilp.Vars | TB-Resonance-Optimizer.py:194-197 | a decision variable exists for a (candidate, TB) pair exactly when the candidate reaches that TB's minimum, and no pair gets two |
| Assignment.DisjointIffUsedAtMostOnce | TB-Resonance-Optimizer.py:201-202 | "each instance used at most once" holds exactly when no two TBs' groups share an instance |
| Assignment.Pigeonhole | TB-Resonance-Optimizer.py:199-202 | a feasible assignment over N instances needs 3 · (number of TBs) ≤ N |
| Assignment.NoEligibleCandidate | TB-Resonance-Optimizer.py:194-200 | a TB that no candidate reaches makes every assignment infeasible |
| Ilp.ExtractSlot | TB-Resonance-Optimizer.py:206-210 | after the read-back loop a TB is empty exactly when none of its variables is 1; when filled, it holds a candidate whose variable is 1 |
| Ilp.ExtractFeasible | TB-Resonance-Optimizer.py:198-210 | reading back a feasible 0/1 solution fills every TB and yields a feasible assignment whose total equals the objective |
| Ilp.EncodeFeasible | TB-Resonance-Optimizer.py:198-203 | every feasible assignment is a feasible 0/1 solution with the same objective, and reading it back returns the assignment |
| Ilp.ExtractOptimal | TB-Resonance-Optimizer.py:198-210 | reading back an optimal 0/1 solution yields an optimal assignment |
| Ilp.EncodeOptimal | TB-Resonance-Optimizer.py:198-203 | an optimal assignment encodes to an optimal 0/1 solution |
| Search.SearchCorrect | TB-Resonance-Optimizer.py:204 | the search returns only feasible completions of its prefix, and finds one at least as good as every feasible completion |
| Search.ReferenceSolve | TB-Resonance-Optimizer.py:204-205 | the reference solver returns an optimal assignment, and returns none exactly when no assignment is feasible |
| Validation.Validate | TB-Resonance-Optimizer.py:149-155 | "not enough parts" iff parts < 3 × TBs; "chips very low" iff chips < TBs; "impossibly high" iff some minimum exceeds 4300 × 5.0; no issue listed twice |
| Validation.IssueList | TB-Resonance-Optimizer.py:149-155 | each issue is listed exactly when its check fired, once |
| Validation.AnyAbove | TB-Resonance-Optimizer.py:154 | true exactly when some minimum lies above the ceiling |
| Validation.CeilingValue | TB-Resonance-Optimizer.py:154 | the ceiling is 4300 × 5.0 = 21500 |
| Validation.NotEnoughPartsInfeasible | TB-Resonance-Optimizer.py:150-151 | when "not enough parts" is flagged, no assignment is feasible |
| Validation.TooHighInfeasible | TB-Resonance-Optimizer.py:154-155 | when "impossibly high" is flagged, no assignment is feasible |
| Validation.CeilingNotTight | TB-Resonance-Optimizer.py:154 | a minimum of 16000 passes the check although no group can reach it |
| Optimizer.ReportOf | TB-Resonance-Optimizer.py:213-227 | the result loop gives one row per TB labelled `TB i+1`, with the group's parts, chips, looked-up multiplier and resonance, and a running total equal to the groups' summed resonance |
| Optimizer.Tabulate | TB-Resonance-Optimizer.py:215-224 | continuing the result loop from any point keeps every row matching its TB's group and the running sum equal to the resonance so far |
| Optimizer.RowScore | TB-Resonance-Optimizer.py:216-223 | every displayed row's resonance is its parts' base sum times its displayed multiplier |
| Optimizer.PicksSums | TB-Resonance-Optimizer.py:198-203 | summing the chosen groups' resonance and chips gives the assignment's objective and chip total |
| Optimizer.ReadBack | TB-Resonance-Optimizer.py:206-210 | the read-back groups fill every TB, are eligible, share no instance, fit the budget, and sum to the objective |
| Optimizer.ReadBackOptimal | TB-Resonance-Optimizer.py:204-210 | the groups read back from an optimal solution have a total at least that of every feasible assignment |
| Optimizer.SolveProgram | TB-Resonance-Optimizer.py:204-224 | the report of an optimal solution, or nothing exactly when nothing is feasible |
| Optimizer.Decide | TB-Resonance-Optimizer.py:168-170 | flagged input is refused and nothing is solved |
| Optimizer.Solve | TB-Resonance-Optimizer.py:161-256 | refuses exactly the flagged inputs; reports "no valid configuration" exactly when nothing is feasible; otherwise reports one eligible group per TB, no instance shared, chips in budget, rows matching the groups, total = sum of the groups' resonance and ≥ every feasible total |
| Optimizer.SolverIndependent | TB-Resonance-Optimizer.py:204-227 | whatever optimal 0/1 vector the solver returns, the read-back total is the one Solve reports |
| Scenarios.ScenarioEsAndR2s | TB-Resonance-Optimizer.py:161-227 | {E:2, R2:2}, 9 chips, one TB with minimum 0: best configuration found, total 5100.0; the single row is `TB 1` with parts E, E, R2 at multiplier 2.0 |
| Scenarios.ScenarioTooFewParts | TB-Resonance-Optimizer.py:150-151 | two parts for one TB: refused with "not enough parts" |
| Scenarios.ScenarioTooHigh | TB-Resonance-Optimizer.py:154-155 | a minimum of 30000: refused with "impossibly high" |
| Scenarios.ScenarioOutOfReach | TB-Resonance-Optimizer.py:254-255 | {E:3}, 1 chip, minimum 3700: passes validation, yet no valid configuration exists (best is 3000 × 1.2) |

## Left out

- The Streamlit interface is not modelled: widgets, session state, preset selection, save and upload, warning/success messages and the progress bar (TB-Resonance-Optimizer.py:63-146, 156-158, 172-190). None of it affects what is computed.
- JSON preset files and the CSV export are not modelled (TB-Resonance-Optimizer.py:129-146, 233-253). They are library serialisation of values the model already has.
- Google Sheets feedback is not modelled (TB-Resonance-Optimizer.py:10-27, 264-276). It is a network side effect.
- The PuLP solve (`prob.solve()`) is a foreign call. The model states the program it is given (`Ilp`) and characterises any optimal answer (`IlpOptimal`). `Search.ReferenceSolve` produces such an answer; `Optimizer.SolverIndependent` shows the reported total does not depend on which optimum the solver picks. Which of several equally good group lists it picks is not modelled.
- Solver statuses other than optimal and infeasible are not modelled. Examples are "not solved" and solver time-outs. The program is always bounded.
- Floating point is replaced by exact tenths, and the integer truncation of displayed values is left out. Rows and totals carry exact tenths of resonance. This changes more than the display: the eligibility test (TB-Resonance-Optimizer.py:196) compares a floating-point resonance with the minimum, and a product such as 200 × 4.6 evaluates to just below 920. So an inventory {Y: 2, Y1: 1} with 78 chips and one TB of minimum 920 gets no variable for that group in the program, and the optimizer reports no valid configuration. The model compares exact tenths, 9200 ≥ 9200, and finds that group.
- Validation.Validate: states which issues are listed and that none repeats, but not their order. The body keeps the source's order: parts, then chips, then minimums.
- Optimizer.Solve: accepts an empty list of TBs, which the number input (minimum 1) never produces. It then reports an empty table with total 0.
- Inventory.Expand: takes the type order of the part table (E, R4, …, Y). The source walks the inventory dictionary, which the input form fills in that same order.
