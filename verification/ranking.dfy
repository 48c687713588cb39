/**
 * The order in which updateMatches (src/controller/ContribMatchFacade.ts)
 * visits its candidate pairs: the list is sorted ascending by score with
 * JavaScript's stable `Array.prototype.sort` and then reversed.
 *
 * Every stable sort with the same comparator gives the same result, so the
 * library sort is modelled by a stable insertion sort. The main result is
 * `RankOrder`: when the candidates are listed in enumeration order (by
 * contributor, then by project), the ranked list is non-increasing by score,
 * and equal scores come out in reverse enumeration order; it is strictly
 * decreasing only in the combined order `SortsBefore`.
 */
module Ranking {
  /** One entry of `possibleMatches`: a score and the ids of the two sides. */
  datatype Candidate = Candidate(score: int, contributor: nat, project: nat)

  /** The nested loops over contributors, then projects, meet `x` before `y`. */
  predicate EnumeratedBefore(x: Candidate, y: Candidate)
  {
    x.contributor < y.contributor || (x.contributor == y.contributor && x.project < y.project)
  }

  predicate InEnumerationOrder(xs: seq<Candidate>)
  {
    forall i, j :: 0 <= i < j < |xs| ==> EnumeratedBefore(xs[i], xs[j])
  }

  /** `x` comes first in the ascending stable sort of a list in enumeration order. */
  predicate SortsBefore(x: Candidate, y: Candidate)
  {
    x.score < y.score || (x.score == y.score && EnumeratedBefore(x, y))
  }

  predicate StrictlyAscending(xs: seq<Candidate>)
  {
    forall i, j :: 0 <= i < j < |xs| ==> SortsBefore(xs[i], xs[j])
  }

  predicate StrictlyDescending(xs: seq<Candidate>)
  {
    forall i, j :: 0 <= i < j < |xs| ==> SortsBefore(xs[j], xs[i])
  }

  /** `SortsBefore` is a strict total order on candidates. */
  lemma SortsBeforeIsStrictTotalOrder(x: Candidate, y: Candidate, z: Candidate)
    ensures !SortsBefore(x, x)
    ensures SortsBefore(x, y) ==> !SortsBefore(y, x)
    ensures SortsBefore(x, y) && SortsBefore(y, z) ==> SortsBefore(x, z)
    ensures x == y || SortsBefore(x, y) || SortsBefore(y, x)
  {
  }

  // ---------------------------------------------------------------------------
  // The stable sort
  // ---------------------------------------------------------------------------

  /** Insert `x` into `sorted` after every element whose score is not greater. */
  function Insert(sorted: seq<Candidate>, x: Candidate): (r: seq<Candidate>)
    ensures |r| == |sorted| + 1
    ensures x in r
  {
    if sorted == [] || sorted[|sorted| - 1].score <= x.score then sorted + [x]
    else Insert(sorted[..|sorted| - 1], x) + [sorted[|sorted| - 1]]
  }

  /** A stable ascending sort by score: each element is inserted, in input order. */
  function StableSort(xs: seq<Candidate>): (sorted: seq<Candidate>)
    ensures |sorted| == |xs|
  {
    if xs == [] then [] else Insert(StableSort(xs[..|xs| - 1]), xs[|xs| - 1])
  }

  lemma {:induction false} InsertIsPermutation(sorted: seq<Candidate>, x: Candidate)
    ensures multiset(Insert(sorted, x)) == multiset(sorted) + multiset{x}
  {
    if sorted != [] && sorted[|sorted| - 1].score > x.score {
      var init := sorted[..|sorted| - 1];
      InsertIsPermutation(init, x);
      assert sorted == init + [sorted[|sorted| - 1]];
    }
  }

  /** The sort neither loses nor invents candidates. */
  lemma {:induction false} StableSortIsPermutation(xs: seq<Candidate>)
    ensures multiset(StableSort(xs)) == multiset(xs)
  {
    if xs != [] {
      var init := xs[..|xs| - 1];
      StableSortIsPermutation(init);
      InsertIsPermutation(StableSort(init), xs[|xs| - 1]);
      assert xs == init + [xs[|xs| - 1]];
    }
  }

  /** Inserting a candidate enumerated after all others keeps the order strict. */
  lemma {:induction false} InsertKeepsOrder(sorted: seq<Candidate>, x: Candidate)
    requires StrictlyAscending(sorted)
    requires forall y :: y in sorted ==> EnumeratedBefore(y, x)
    ensures StrictlyAscending(Insert(sorted, x))
  {
    if sorted == [] || sorted[|sorted| - 1].score <= x.score {
      var r := sorted + [x];
      forall i, j | 0 <= i < j < |r|
        ensures SortsBefore(r[i], r[j])
      {
        if j == |sorted| {
          assert sorted[i] in sorted;
          if i < |sorted| - 1 {
            assert SortsBefore(sorted[i], sorted[|sorted| - 1]);
          }
        }
      }
    } else {
      var init := sorted[..|sorted| - 1];
      var last := sorted[|sorted| - 1];
      assert forall y :: y in init ==> y in sorted;
      InsertKeepsOrder(init, x);
      InsertIsPermutation(init, x);
      var inserted := Insert(init, x);
      forall i | 0 <= i < |inserted|
        ensures SortsBefore(inserted[i], last)
      {
        assert inserted[i] in multiset(inserted);
        if inserted[i] != x {
          assert inserted[i] in init;
          var k :| 0 <= k < |init| && init[k] == inserted[i];
          assert sorted[k] == inserted[i];
        }
      }
    }
  }

  /** On a list in enumeration order, the stable sort is strictly ascending: ties keep enumeration order. */
  lemma {:induction false} StableSortOrder(xs: seq<Candidate>)
    requires InEnumerationOrder(xs)
    ensures StrictlyAscending(StableSort(xs))
  {
    if xs != [] {
      var init := xs[..|xs| - 1];
      var last := xs[|xs| - 1];
      assert InEnumerationOrder(init);
      StableSortOrder(init);
      StableSortIsPermutation(init);
      forall y | y in StableSort(init)
        ensures EnumeratedBefore(y, last)
      {
        assert y in multiset(StableSort(init));
        var k :| 0 <= k < |init| && init[k] == y;
      }
      InsertKeepsOrder(StableSort(init), last);
    }
  }

  // ---------------------------------------------------------------------------
  // Reversal and the rank
  // ---------------------------------------------------------------------------

  /** `Array.prototype.reverse`. */
  function Reversed(xs: seq<Candidate>): (r: seq<Candidate>)
    ensures |r| == |xs|
  {
    seq(|xs|, i requires 0 <= i < |xs| => xs[|xs| - 1 - i])
  }

  lemma ReversedIsPermutation(xs: seq<Candidate>)
    ensures multiset(Reversed(xs)) == multiset(xs)
  {
    if xs != [] {
      var init := xs[..|xs| - 1];
      ReversedIsPermutation(init);
      assert Reversed(xs) == [xs[|xs| - 1]] + Reversed(init);
      assert xs == init + [xs[|xs| - 1]];
    }
  }

  /** The order of `possibleMatches` after `sort` and `reverse`. */
  function Rank(xs: seq<Candidate>): (ranked: seq<Candidate>)
    ensures |ranked| == |xs|
  {
    Reversed(StableSort(xs))
  }

  /** The ranked list holds exactly the candidates it was given. */
  lemma RankIsPermutation(xs: seq<Candidate>)
    ensures multiset(Rank(xs)) == multiset(xs)
  {
    StableSortIsPermutation(xs);
    ReversedIsPermutation(StableSort(xs));
  }

  /**
   * Ranked candidates come highest score first, and among equal scores the
   * one enumerated last comes first.
   */
  lemma RankOrder(xs: seq<Candidate>)
    requires InEnumerationOrder(xs)
    ensures StrictlyDescending(Rank(xs))
    ensures forall i, j :: 0 <= i < j < |Rank(xs)| ==> Rank(xs)[j].score <= Rank(xs)[i].score
  {
    StableSortOrder(xs);
    var s := StableSort(xs);
    var r := Rank(xs);
    forall i, j | 0 <= i < j < |r|
      ensures SortsBefore(r[j], r[i])
    {
      assert r[j] == s[|s| - 1 - j] && r[i] == s[|s| - 1 - i];
    }
  }

  /** The head of a strictly descending list ranks above every other element. */
  lemma HeadRanksFirst(a: seq<Candidate>, x: Candidate)
    requires StrictlyDescending(a) && x in multiset(a)
    ensures x == a[0] || SortsBefore(x, a[0])
  {
    var k :| 0 <= k < |a| && a[k] == x;
  }

  lemma TailStrictlyDescending(a: seq<Candidate>)
    requires StrictlyDescending(a) && a != []
    ensures StrictlyDescending(a[1..])
  {
    forall i, j | 0 <= i < j < |a| - 1
      ensures SortsBefore(a[1..][j], a[1..][i])
    {
      assert a[1..][j] == a[j + 1] && a[1..][i] == a[i + 1];
    }
  }

  /** Two strictly descending lists of the same candidates are the same list. */
  lemma {:induction false} StrictlyDescendingUnique(a: seq<Candidate>, b: seq<Candidate>)
    requires StrictlyDescending(a) && StrictlyDescending(b)
    requires multiset(a) == multiset(b)
    ensures a == b
  {
    if a == [] {
      assert |b| == |multiset(b)| == 0;
    } else {
      assert |b| == |multiset(b)| == |multiset(a)| == |a|;
      HeadRanksFirst(b, a[0]);
      HeadRanksFirst(a, b[0]);
      SortsBeforeIsStrictTotalOrder(a[0], b[0], a[0]);
      assert a[0] == b[0];
      var a', b' := a[1..], b[1..];
      assert a == [a[0]] + a' && b == [b[0]] + b';
      assert multiset(a) == multiset{a[0]} + multiset(a');
      assert multiset(b) == multiset{a[0]} + multiset(b');
      assert multiset(a') == multiset(a) - multiset{a[0]};
      assert multiset(b') == multiset(b) - multiset{a[0]};
      TailStrictlyDescending(a);
      TailStrictlyDescending(b);
      StrictlyDescendingUnique(a', b');
    }
  }

  /** The rank of an enumeration-ordered list is its unique strictly descending arrangement. */
  lemma RankIs(xs: seq<Candidate>, ys: seq<Candidate>)
    requires InEnumerationOrder(xs)
    requires StrictlyDescending(ys) && multiset(ys) == multiset(xs)
    ensures Rank(xs) == ys
  {
    RankOrder(xs);
    RankIsPermutation(xs);
    StrictlyDescendingUnique(Rank(xs), ys);
  }
}
