/** The 3-element index combinations of 0 .. n-1, enumerated in the
    lexicographic order the optimizer's combination enumeration uses. */
module Combinations {

  import opened Seqs

  /** Three instance indices, listed in increasing order. */
  datatype Triple = Triple(i: nat, j: nat, k: nat)
  {
    /** The instances the triple uses. */
    function Indices(): set<nat>
    {
      {i, j, k}
    }
  }

  /** A strictly increasing triple of indices below n. */
  predicate IsCombination(t: Triple, n: nat)
  {
    t.i < t.j < t.k < n
  }

  /** The binomial coefficient, by Pascal's rule. */
  function Choose(n: nat, r: nat): nat
  {
    if r == 0 then 1
    else if n == 0 then 0
    else Choose(n - 1, r - 1) + Choose(n - 1, r)
  }

  /** The distance from a to b, or 0 when a is past b. */
  function Gap(a: nat, b: nat): nat
  {
    if a < b then b - a else 0
  }

  /** (i, j, k), (i, j, k + 1), ..., (i, j, n - 1). */
  function ThirdFrom(i: nat, j: nat, k: nat, n: nat): seq<Triple>
    decreases n - k
  {
    if k >= n then [] else [Triple(i, j, k)] + ThirdFrom(i, j, k + 1, n)
  }

  /** Every triple starting with i whose middle index is at least j. */
  function SecondFrom(i: nat, j: nat, n: nat): seq<Triple>
    decreases n - j
  {
    if j >= n then [] else ThirdFrom(i, j, j + 1, n) + SecondFrom(i, j + 1, n)
  }

  /** Every increasing triple below n whose first index is at least i. */
  function FirstFrom(i: nat, n: nat): seq<Triple>
    decreases n - i
  {
    if i >= n then [] else SecondFrom(i, i + 1, n) + FirstFrom(i + 1, n)
  }

  /** Every strictly increasing index triple below n, in lexicographic order. */
  function Combinations3(n: nat): seq<Triple>
  {
    FirstFrom(0, n)
  }

  lemma {:induction false} ThirdFromFacts(i: nat, j: nat, k: nat, n: nat)
    ensures |ThirdFrom(i, j, k, n)| == Gap(k, n)
    ensures forall t :: t in ThirdFrom(i, j, k, n) <==> t.i == i && t.j == j && k <= t.k < n
    ensures Distinct(ThirdFrom(i, j, k, n))
    decreases n - k
  {
    if k < n {
      ThirdFromFacts(i, j, k + 1, n);
      DistinctConcat([Triple(i, j, k)], ThirdFrom(i, j, k + 1, n));
    }
  }

  lemma {:induction false} SecondFromFacts(i: nat, j: nat, n: nat)
    ensures |SecondFrom(i, j, n)| == Choose(Gap(j, n), 2)
    ensures forall t :: t in SecondFrom(i, j, n) <==> t.i == i && j <= t.j < t.k < n
    ensures Distinct(SecondFrom(i, j, n))
    decreases n - j
  {
    if j < n {
      ThirdFromFacts(i, j, j + 1, n);
      SecondFromFacts(i, j + 1, n);
      ChooseOne(Gap(j + 1, n));
      DistinctConcat(ThirdFrom(i, j, j + 1, n), SecondFrom(i, j + 1, n));
    }
  }

  lemma {:induction false} FirstFromFacts(i: nat, n: nat)
    ensures |FirstFrom(i, n)| == Choose(Gap(i, n), 3)
    ensures forall t :: t in FirstFrom(i, n) <==> i <= t.i < t.j < t.k < n
    ensures Distinct(FirstFrom(i, n))
    decreases n - i
  {
    if i < n {
      SecondFromFacts(i, i + 1, n);
      FirstFromFacts(i + 1, n);
      DistinctConcat(SecondFrom(i, i + 1, n), FirstFrom(i + 1, n));
    }
  }

  /** The generator yields each increasing triple below n exactly once, and
      nothing else: C(n, 3) triples in all. */
  lemma Combinations3Facts(n: nat)
    ensures |Combinations3(n)| == Choose(n, 3)
    ensures forall t :: t in Combinations3(n) <==> IsCombination(t, n)
    ensures Distinct(Combinations3(n))
  {
    FirstFromFacts(0, n);
  }

  lemma {:induction false} ChooseOne(n: nat)
    ensures Choose(n, 1) == n
  {
    if n > 0 {
      ChooseOne(n - 1);
    }
  }

  lemma {:induction false} ChooseTwo(n: nat)
    ensures 2 * Choose(n, 2) == n * (n - 1)
  {
    if n > 0 {
      ChooseTwo(n - 1);
      ChooseOne(n - 1);
    }
  }

  /** C(n, 3) = n (n - 1) (n - 2) / 6; in particular it is 0 below 3. */
  lemma {:induction false} ChooseThree(n: nat)
    ensures 6 * Choose(n, 3) == n * (n - 1) * (n - 2)
    ensures n < 3 ==> Choose(n, 3) == 0
  {
    if n > 0 {
      var m: nat := n - 1;
      ChooseThree(m);
      ChooseTwo(m);
      var p := m * (m - 1);
      assert 6 * Choose(m, 2) == 3 * p;
      assert 6 * Choose(m, 3) == p * (m - 2);
      assert 6 * Choose(n, 3) == 3 * p + p * (m - 2);
      assert 3 * p + p * (m - 2) == p * (m + 1);
      assert p * (m + 1) == n * (n - 1) * (n - 2);
    }
  }

  /** The three indices of a combination are different. */
  lemma CombinationSize(t: Triple, n: nat)
    requires IsCombination(t, n)
    ensures |t.Indices()| == 3
    ensures forall x :: x in t.Indices() ==> x < n
  {
    assert t.Indices() == {t.i} + {t.j} + {t.k};
  }
}
