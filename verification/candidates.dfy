/** Candidate groups: every 3-instance combination paired with every row of
    the multiplier table, scored. */
module Candidates {

  import opened Seqs
  import opened Tables
  import opened Inventory
  import opened Combinations

  /** One scored group, with the fields the optimizer keeps for it: the
      instance indices, their part types, the chips spent, and the resonance
      in tenths. */
  datatype Candidate = Candidate(idxs: Triple, parts: seq<PartType>, chips: nat, resonance10: nat)

  /** The candidate for one combination and one multiplier row. */
  function MakeCandidate(inst: seq<PartType>, t: Triple, e: MultEntry): Candidate
    requires IsCombination(t, |inst|)
  {
    var parts := [inst[t.i], inst[t.j], inst[t.k]];
    Candidate(t, parts, e.chips, SumBase(parts) * e.mult10)
  }

  /** What the optimizer may rely on about a candidate: its indices form a
      combination of the instance list, its parts are the types at those
      indices, its chip cost is a row of the table, and its resonance is the
      three base values summed times the multiplier that cost buys. */
  predicate WellFormed(c: Candidate, inst: seq<PartType>, table: seq<MultEntry>)
  {
    && IsCombination(c.idxs, |inst|)
    && c.parts == [inst[c.idxs.i], inst[c.idxs.j], inst[c.idxs.k]]
    && HasKey(table, c.chips)
    && c.resonance10 == (BaseValue(c.parts[0]) + BaseValue(c.parts[1]) + BaseValue(c.parts[2])) * MultiplierOf(table, c.chips)
  }

  /** The candidates of one combination, one per table row, in table order. */
  function Block(inst: seq<PartType>, t: Triple, table: seq<MultEntry>): seq<Candidate>
    requires IsCombination(t, |inst|)
  {
    seq(|table|, m requires 0 <= m < |table| => MakeCandidate(inst, t, table[m]))
  }

  /** The candidates of the listed combinations, combination by combination. */
  function CandidatesFor(inst: seq<PartType>, ts: seq<Triple>, table: seq<MultEntry>): seq<Candidate>
    requires forall t :: t in ts ==> IsCombination(t, |inst|)
  {
    if |ts| == 0 then [] else Block(inst, ts[0], table) + CandidatesFor(inst, ts[1..], table)
  }

  /** The candidate list the optimizer works on (`combos`). It holds
      C(N, 3) * |table| candidates, all well formed, all different, and one for
      every pair of a combination and a table row. */
  function Generate(inst: seq<PartType>, table: seq<MultEntry>): (cands: seq<Candidate>)
    requires KeysIncreasing(table)
    ensures |cands| == Choose(|inst|, 3) * |table|
    ensures forall c :: c in cands ==> WellFormed(c, inst, table)
    ensures forall t, e :: IsCombination(t, |inst|) && e in table ==> MakeCandidate(inst, t, e) in cands
    ensures Distinct(cands)
  {
    var ts := Combinations3(|inst|);
    Combinations3Facts(|inst|);
    CandidatesForFacts(inst, ts, table);
    var cands := CandidatesFor(inst, ts, table);
    assert forall c :: c in cands ==> WellFormed(c, inst, table) by {
      forall c | c in cands
        ensures WellFormed(c, inst, table)
      {
        var e :| e in table && c == MakeCandidate(inst, c.idxs, e);
        MakeCandidateWellFormed(inst, c.idxs, e, table);
      }
    }
    cands
  }

  /** The candidates of an inventory under the game's multiplier table. */
  function CandidatesOf(inv: Inventory): (cands: seq<Candidate>)
    ensures |cands| == Choose(TotalParts(inv), 3) * 21
    ensures forall c :: c in cands ==> WellFormed(c, Expand(inv), MultiplierTable)
  {
    MultiplierTableFacts();
    Generate(Expand(inv), MultiplierTable)
  }

  lemma MakeCandidateWellFormed(inst: seq<PartType>, t: Triple, e: MultEntry, table: seq<MultEntry>)
    requires IsCombination(t, |inst|)
    requires KeysIncreasing(table) && e in table
    ensures WellFormed(MakeCandidate(inst, t, e), inst, table)
  {
    MultiplierOfEntry(table, e);
    SumBaseThree(inst[t.i], inst[t.j], inst[t.k]);
  }

  lemma SumBaseThree(a: PartType, b: PartType, c: PartType)
    ensures SumBase([a, b, c]) == BaseValue(a) + BaseValue(b) + BaseValue(c)
  {
    assert [c][1..] == [];
    assert SumBase([c]) == BaseValue(c);
    assert [b, c][1..] == [c];
    assert SumBase([b, c]) == BaseValue(b) + BaseValue(c);
    assert [a, b, c][1..] == [b, c];
  }

  lemma {:induction false} CandidatesForFacts(inst: seq<PartType>, ts: seq<Triple>, table: seq<MultEntry>)
    requires forall t :: t in ts ==> IsCombination(t, |inst|)
    requires Distinct(ts) && KeysIncreasing(table)
    ensures |CandidatesFor(inst, ts, table)| == |ts| * |table|
    ensures forall c :: c in CandidatesFor(inst, ts, table) ==>
      c.idxs in ts && exists e :: e in table && c == MakeCandidate(inst, c.idxs, e)
    ensures forall t, e :: t in ts && e in table ==> MakeCandidate(inst, t, e) in CandidatesFor(inst, ts, table)
    ensures Distinct(CandidatesFor(inst, ts, table))
  {
    if |ts| > 0 {
      var rest := ts[1..];
      assert Distinct(rest) by {
        forall a, b | 0 <= a < b < |rest| ensures rest[a] != rest[b] {
          assert rest[a] == ts[a + 1] && rest[b] == ts[b + 1];
        }
      }
      CandidatesForFacts(inst, rest, table);
      var block := Block(inst, ts[0], table);
      var tail := CandidatesFor(inst, rest, table);
      assert |ts| * |table| == |table| + |rest| * |table|;
      assert Distinct(block) by {
        forall a, b | 0 <= a < b < |block| ensures block[a] != block[b] {
          assert block[a].chips == table[a].chips && block[b].chips == table[b].chips;
        }
      }
      assert forall c :: c in block ==> c !in tail by {
        forall c | c in block
          ensures c !in tail
        {
          assert c.idxs == ts[0];
          assert ts[0] !in rest;
        }
      }
      DistinctConcat(block, tail);
      forall t, e | t in ts && e in table
        ensures MakeCandidate(inst, t, e) in block + tail
      {
        if t == ts[0] {
          var m :| 0 <= m < |table| && table[m] == e;
          assert block[m] == MakeCandidate(inst, t, e);
        } else {
          assert t in rest;
        }
      }
      forall c | c in block + tail
        ensures c.idxs in ts && exists e :: e in table && c == MakeCandidate(inst, c.idxs, e)
      {
        if c in block {
          var m :| 0 <= m < |block| && block[m] == c;
          assert table[m] in table;
        }
      }
    }
  }

  /** No candidate reaches more than three of the best part at the best
      multiplier: 3 * 1000 * 5.0 = 15000, i.e. 150000 tenths. */
  lemma ResonanceCeiling(c: Candidate, inst: seq<PartType>)
    requires WellFormed(c, inst, MultiplierTable)
    ensures c.resonance10 <= 150000
  {
    var base := BaseValue(c.parts[0]) + BaseValue(c.parts[1]) + BaseValue(c.parts[2]);
    var m := MultiplierOf(MultiplierTable, c.chips);
    assert base <= 3000 by {
      BaseValueFacts();
    }
    assert m <= 50 by {
      MultiplierTableFacts();
      assert MultEntry(c.chips, m) in MultiplierTable;
    }
    MulBound(base, m, 3000, 50);
  }

  lemma MulBound(a: nat, b: nat, x: nat, y: nat)
    requires a <= x && b <= y
    ensures a * b <= x * y
  {
    assert a * b <= x * b;
    assert x * b <= x * y;
  }
}
