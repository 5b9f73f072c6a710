/** The fixed game data: part types and their base values, the chip-cost to
    multiplier table, and the number of parts in one group. */
module Tables {

  import opened Seqs

  /** The ten part types, in the order the inventory lists them. */
  datatype PartType = E | R4 | R3 | R2 | R1 | R | Y3 | Y2 | Y1 | Y

  /** Base resonance one part of the given type contributes to its group. */
  function BaseValue(p: PartType): nat
  {
    match p
    case E => 1000
    case R4 => 850
    case R3 => 700
    case R2 => 550
    case R1 => 400
    case R => 300
    case Y3 => 200
    case Y2 => 150
    case Y1 => 100
    case Y => 50
  }

  /** Every part type, in table order. */
  const AllParts: seq<PartType> := [E, R4, R3, R2, R1, R, Y3, Y2, Y1, Y]

  /** Parts making up one group (one TB). */
  const PartsPerTb: nat := 3

  /** One row of the multiplier table. The multiplier is held in tenths
      (1.2x is 12), so every product with a base value is an exact integer. */
  datatype MultEntry = MultEntry(chips: nat, mult10: nat)

  /** Chip cost to multiplier, in the table's order. */
  const MultiplierTable: seq<MultEntry> := [
    MultEntry(0, 10), MultEntry(1, 12), MultEntry(2, 14), MultEntry(4, 16),
    MultEntry(6, 18), MultEntry(9, 20), MultEntry(12, 22), MultEntry(16, 24),
    MultEntry(20, 26), MultEntry(25, 28), MultEntry(30, 30), MultEntry(36, 32),
    MultEntry(42, 34), MultEntry(48, 36), MultEntry(54, 38), MultEntry(60, 40),
    MultEntry(66, 42), MultEntry(72, 44), MultEntry(78, 46), MultEntry(84, 48),
    MultEntry(90, 50)
  ]

  /** Sum of the base values of a list of parts. */
  function SumBase(ps: seq<PartType>): nat
  {
    if |ps| == 0 then 0 else BaseValue(ps[0]) + SumBase(ps[1..])
  }

  /** The largest multiplier of a table, the one the ceiling check uses. */
  function MaxMult10(table: seq<MultEntry>): (m: nat)
    requires |table| > 0
    ensures forall e :: e in table ==> e.mult10 <= m
    ensures exists e :: e in table && e.mult10 == m
  {
    if |table| == 1 then table[0].mult10
    else
      var rest := MaxMult10(table[1..]);
      assert forall e :: e in table ==> e == table[0] || e in table[1..];
      if table[0].mult10 > rest then table[0].mult10 else rest
  }

  /** A table is a valid lookup table: its chip costs are strictly increasing
      (so no cost occurs twice, as in any dictionary). */
  predicate KeysIncreasing(table: seq<MultEntry>)
  {
    forall a, b :: 0 <= a < b < |table| ==> table[a].chips < table[b].chips
  }

  /** Spending more chips never buys a smaller multiplier. */
  predicate Monotone(table: seq<MultEntry>)
  {
    forall a, b :: 0 <= a < b < |table| ==> table[a].chips < table[b].chips && table[a].mult10 <= table[b].mult10
  }

  /** Each row costs more and multiplies no less than the row before it. */
  predicate StepsIncrease(table: seq<MultEntry>)
  {
    forall a :: 0 < a < |table| ==> table[a - 1].chips < table[a].chips && table[a - 1].mult10 <= table[a].mult10
  }

  /** Row-by-row growth gives growth between any two rows. */
  lemma {:induction false} StepsGiveMonotone(table: seq<MultEntry>)
    requires StepsIncrease(table)
    ensures Monotone(table) && KeysIncreasing(table)
  {
    if |table| > 1 {
      var init := table[..|table| - 1];
      assert StepsIncrease(init);
      StepsGiveMonotone(init);
      forall a, b | 0 <= a < b < |table|
        ensures table[a].chips < table[b].chips && table[a].mult10 <= table[b].mult10
      {
        if b < |table| - 1 {
          assert table[a] == init[a] && table[b] == init[b];
        } else if a < b - 1 {
          assert table[a] == init[a] && table[b - 1] == init[b - 1];
        }
      }
    }
  }

  predicate HasKey(table: seq<MultEntry>, chips: nat)
  {
    exists e :: e in table && e.chips == chips
  }

  /** The multiplier a chip cost buys (`MULTIPLIER_DATA[chips]`). */
  function MultiplierOf(table: seq<MultEntry>, chips: nat): (m: nat)
    requires HasKey(table, chips)
    ensures MultEntry(chips, m) in table
  {
    if table[0].chips == chips then table[0].mult10
    else
      assert forall e :: e in table && e != table[0] ==> e in table[1..];
      MultiplierOf(table[1..], chips)
  }

  /** In a table without repeated keys, looking up an entry's cost gives back
      that entry's multiplier. */
  lemma {:induction false} MultiplierOfEntry(table: seq<MultEntry>, e: MultEntry)
    requires KeysIncreasing(table)
    requires e in table
    ensures HasKey(table, e.chips)
    ensures MultiplierOf(table, e.chips) == e.mult10
  {
    if table[0] != e {
      assert e in table[1..];
      MultiplierOfEntry(table[1..], e);
    }
  }

  /** In a monotone table, an entry costing no more than another buys no
      larger a multiplier. */
  lemma MonotoneEntries(table: seq<MultEntry>, e: MultEntry, f: MultEntry)
    requires Monotone(table)
    requires e in table && f in table
    requires e.chips <= f.chips
    ensures e.mult10 <= f.mult10
  {
    var a :| 0 <= a < |table| && table[a] == e;
    var b :| 0 <= b < |table| && table[b] == f;
    if b < a {
      assert table[b].chips < table[a].chips;
    }
  }

  /** The multiplier table is a valid, monotone lookup table of 21 rows
      whose multipliers lie between 1.0x and 5.0x. */
  lemma MultiplierTableFacts()
    ensures |MultiplierTable| == 21
    ensures KeysIncreasing(MultiplierTable) && Monotone(MultiplierTable)
    ensures forall e :: e in MultiplierTable ==> 10 <= e.mult10 <= 50
  {
    MultiplierTableSteps();
    StepsGiveMonotone(MultiplierTable);
    MultiplierTableRange();
  }

  /** Each row of the multiplier table costs more than the previous one and
      buys at least as much. */
  lemma MultiplierTableSteps()
    ensures StepsIncrease(MultiplierTable)
  {
    StepsLow();
    StepsMiddle();
    StepsHigh();
    forall a | 0 < a < |MultiplierTable|
      ensures MultiplierTable[a - 1].chips < MultiplierTable[a].chips
      ensures MultiplierTable[a - 1].mult10 <= MultiplierTable[a].mult10
    {
      assert StepAt(MultiplierTable, a);
    }
  }

  /** Row a costs more than row a - 1 and buys at least as much. */
  predicate StepAt(table: seq<MultEntry>, a: nat)
    requires 0 < a < |table|
  {
    table[a - 1].chips < table[a].chips && table[a - 1].mult10 <= table[a].mult10
  }

  lemma StepsLow()
    ensures forall a :: 0 < a < 8 ==> StepAt(MultiplierTable, a)
  {
  }

  lemma StepsMiddle()
    ensures forall a :: 8 <= a < 15 ==> StepAt(MultiplierTable, a)
  {
  }

  lemma StepsHigh()
    ensures forall a :: 15 <= a < 21 ==> StepAt(MultiplierTable, a)
  {
  }

  /** Every multiplier of the table lies between 1.0x and 5.0x. */
  lemma MultiplierTableRange()
    ensures forall e :: e in MultiplierTable ==> 10 <= e.mult10 <= 50
  {
  }

  /** The table's largest multiplier is 5.0x. */
  lemma MaxMultiplierFacts()
    ensures MaxMult10(MultiplierTable) == 50
  {
    MultiplierTableFacts();
    var m := MaxMult10(MultiplierTable);
    var e :| e in MultiplierTable && e.mult10 == m;
    assert MultEntry(90, 50) in MultiplierTable;
  }

  /** The ten base values sum to 4300 and none exceeds 1000. */
  lemma BaseValueFacts()
    ensures SumBase(AllParts) == 4300
    ensures forall p :: BaseValue(p) <= 1000
  {
  }

  /** The type list names every part type. */
  lemma AllPartsComplete()
    ensures forall p :: p in AllParts
  {
    forall p
      ensures p in AllParts
    {
      match p
      case E => assert AllParts[0] == p;
      case R4 => assert AllParts[1] == p;
      case R3 => assert AllParts[2] == p;
      case R2 => assert AllParts[3] == p;
      case R1 => assert AllParts[4] == p;
      case R => assert AllParts[5] == p;
      case Y3 => assert AllParts[6] == p;
      case Y2 => assert AllParts[7] == p;
      case Y1 => assert AllParts[8] == p;
      case Y => assert AllParts[9] == p;
    }
  }

  /** The type list names no type twice. */
  lemma AllPartsDistinct()
    ensures Distinct(AllParts)
  {
  }
}
