/** An exhaustive reference solver: it tries every candidate in every slot
    and keeps the best feasible choice. It stands in for the external
    integer-programming solver, whose only promise is the same: an optimal
    choice when one exists, and a definite "none" otherwise. */
module Search {

  import opened Wrappers
  import opened Assignment
  import opened Candidates

  /** The better of two results; on a tie, the first. */
  function Better(cands: seq<Candidate>, x: Option<Choice>, y: Option<Choice>): Option<Choice>
  {
    match x
    case None => y
    case Some(a) =>
      match y
      case None => x
      case Some(b) => if Total(cands, b) > Total(cands, a) then y else x
  }

  /** `b` starts with `prefix` and, if longer, continues with a candidate
      index of at least c. */
  predicate Extends(b: Choice, prefix: Choice, c: nat)
  {
    prefix <= b && (|prefix| < |b| ==> b[|prefix|] >= c)
  }

  /** The best feasible completion of `prefix` whose next slot holds a
      candidate index of at least c, trying candidates c, c + 1, ... */
  function Search(cands: seq<Candidate>, mins: seq<nat>, budget: nat, prefix: Choice, c: nat): Option<Choice>
    requires |prefix| <= |mins|
    decreases |mins| - |prefix|, |cands| - c
  {
    if |prefix| == |mins| then
      if Feasible(cands, mins, budget, prefix) then Some(prefix) else None
    else if c >= |cands| then None
    else Better(cands, Search(cands, mins, budget, prefix + [c], 0), Search(cands, mins, budget, prefix, c + 1))
  }

  /** The search finds a feasible completion of the kind asked for, no
      feasible completion of that kind beats it, and it finds none only
      when there is none. */
  lemma {:induction false} SearchCorrect(cands: seq<Candidate>, mins: seq<nat>, budget: nat, prefix: Choice, c: nat)
    requires |prefix| <= |mins|
    ensures Search(cands, mins, budget, prefix, c).Some? ==>
      && Feasible(cands, mins, budget, Search(cands, mins, budget, prefix, c).value)
      && Extends(Search(cands, mins, budget, prefix, c).value, prefix, c)
    ensures forall b :: Feasible(cands, mins, budget, b) && Extends(b, prefix, c) ==>
      && Search(cands, mins, budget, prefix, c).Some?
      && Total(cands, b) <= Total(cands, Search(cands, mins, budget, prefix, c).value)
    decreases |mins| - |prefix|, |cands| - c
  {
    if |prefix| == |mins| {
      forall b | Feasible(cands, mins, budget, b) && Extends(b, prefix, c)
        ensures b == prefix
      {
        assert |b| == |prefix|;
      }
    } else if c < |cands| {
      var longer := prefix + [c];
      SearchCorrect(cands, mins, budget, longer, 0);
      SearchCorrect(cands, mins, budget, prefix, c + 1);
      var r1 := Search(cands, mins, budget, longer, 0);
      var r2 := Search(cands, mins, budget, prefix, c + 1);
      if r1.Some? {
        var v := r1.value;
        assert v[..|prefix|] == longer[..|prefix|] == prefix;
        assert v[|prefix|] == longer[|prefix|] == c;
      }
      forall b | Feasible(cands, mins, budget, b) && Extends(b, prefix, c)
        ensures Extends(b, longer, 0) || Extends(b, prefix, c + 1)
      {
        if b[|prefix|] == c {
          assert b[..|longer|] == b[..|prefix|] + [b[|prefix|]];
        }
      }
    }
  }

  /** The solve step: an optimal choice for the slots, or `None` exactly
      when no choice is feasible. */
  function ReferenceSolve(cands: seq<Candidate>, mins: seq<nat>, budget: nat): (r: Option<Choice>)
    ensures r.Some? ==> Optimal(cands, mins, budget, r.value)
    ensures r.None? <==> forall a :: !Feasible(cands, mins, budget, a)
  {
    SearchCorrect(cands, mins, budget, [], 0);
    Search(cands, mins, budget, [], 0)
  }
}
