/**
 * One matching cycle of ContribMatchFacade.updateMatches
 * (src/controller/ContribMatchFacade.ts), as functions on the store:
 *
 *  1. `Candidates`: every pair of a live contributor and a project that both
 *     have no match yet, with its score, in the order of the nested loops;
 *  2. `Rank`: the stable ascending sort by score, then reversed;
 *  3. `CommitAll`: the walk that links a pair when both sides are still
 *     unmatched.
 *
 * Deleted contributor slots are skipped here; the code as written fails on
 * them instead (`CycleAsWritten`).
 */
module Matching {
  import opened Optional
  import opened Arena
  import opened Ranking

  // ---------------------------------------------------------------------------
  // Candidates (the nested loops that build possibleMatches)
  // ---------------------------------------------------------------------------

  /** The candidates of contributor `c` against the first `n` projects. */
  function RowCandidates(st: Store, score: Scorer, c: nat, n: nat): (row: seq<Candidate>)
    requires c < |st.contributors| && n <= |st.projects|
    ensures |row| <= n
    ensures (Live(st, c) && st.contributors[c].value.matches == [] && n > 0
             && st.projects[n - 1].matches == []) ==> row != []
  {
    if n == 0 then []
    else
      RowCandidates(st, score, c, n - 1)
        + if Free(st, c, n - 1) then [Candidate(PairScore(st, score, c, n - 1), c, n - 1)] else []
  }

  /** The candidates of the first `m` contributors. */
  function CandidatesUpTo(st: Store, score: Scorer, m: nat): (upTo: seq<Candidate>)
    requires m <= |st.contributors|
    ensures |upTo| <= m * |st.projects|
  {
    if m == 0 then [] else CandidatesUpTo(st, score, m - 1) + RowCandidates(st, score, m - 1, |st.projects|)
  }

  /** possibleMatches before it is sorted. */
  function Candidates(st: Store, score: Scorer): (candidates: seq<Candidate>)
    ensures |candidates| <= |st.contributors| * |st.projects|
  {
    CandidatesUpTo(st, score, |st.contributors|)
  }

  /** A free pair, carrying its own score. */
  predicate IsCandidate(st: Store, score: Scorer, x: Candidate)
  {
    Free(st, x.contributor, x.project) && x.score == PairScore(st, score, x.contributor, x.project)
  }

  lemma {:induction false} RowCandidatesMember(st: Store, score: Scorer, c: nat, n: nat, x: Candidate)
    requires c < |st.contributors| && n <= |st.projects|
    ensures x in RowCandidates(st, score, c, n) <==> x.contributor == c && x.project < n && IsCandidate(st, score, x)
  {
    if n > 0 {
      RowCandidatesMember(st, score, c, n - 1, x);
    }
  }

  /** The row of contributor `c` pairs it with projects before `n`, in increasing order. */
  lemma {:induction false} RowCandidatesOrder(st: Store, score: Scorer, c: nat, n: nat)
    requires c < |st.contributors| && n <= |st.projects|
    ensures forall x :: x in RowCandidates(st, score, c, n) ==> x.contributor == c && x.project < n
    ensures InEnumerationOrder(RowCandidates(st, score, c, n))
  {
    if n > 0 {
      RowCandidatesOrder(st, score, c, n - 1);
      var front := RowCandidates(st, score, c, n - 1);
      forall i | 0 <= i < |front|
        ensures front[i].contributor == c && front[i].project < n - 1
      {
        assert front[i] in front;
      }
    }
  }

  /** Two lists in enumeration order, the first wholly before the second, joined. */
  lemma JoinInEnumerationOrder(a: seq<Candidate>, b: seq<Candidate>)
    requires InEnumerationOrder(a) && InEnumerationOrder(b)
    requires forall x, y :: x in a && y in b ==> EnumeratedBefore(x, y)
    ensures InEnumerationOrder(a + b)
  {
    var ab := a + b;
    forall i, j | 0 <= i < j < |ab|
      ensures EnumeratedBefore(ab[i], ab[j])
    {
      if i < |a| && j >= |a| {
        assert ab[i] == a[i] && ab[j] == b[j - |a|];
        assert ab[i] in a && ab[j] in b;
      } else if j < |a| {
        assert ab[i] == a[i] && ab[j] == a[j];
      } else {
        assert ab[i] == b[i - |a|] && ab[j] == b[j - |a|];
      }
    }
  }

  lemma {:induction false} CandidatesUpToMember(st: Store, score: Scorer, m: nat, x: Candidate)
    requires m <= |st.contributors|
    ensures x in CandidatesUpTo(st, score, m) <==> x.contributor < m && IsCandidate(st, score, x)
  {
    if m > 0 {
      CandidatesUpToMember(st, score, m - 1, x);
      RowCandidatesMember(st, score, m - 1, |st.projects|, x);
    }
  }

  lemma {:induction false} CandidatesUpToOrder(st: Store, score: Scorer, m: nat)
    requires m <= |st.contributors|
    ensures forall x :: x in CandidatesUpTo(st, score, m) ==> x.contributor < m
    ensures InEnumerationOrder(CandidatesUpTo(st, score, m))
  {
    if m > 0 {
      var front := CandidatesUpTo(st, score, m - 1);
      var row := RowCandidates(st, score, m - 1, |st.projects|);
      CandidatesUpToOrder(st, score, m - 1);
      RowCandidatesOrder(st, score, m - 1, |st.projects|);
      JoinInEnumerationOrder(front, row);
      assert CandidatesUpTo(st, score, m) == front + row;
    }
  }

  /** possibleMatches holds exactly the free pairs, each with its score, in enumeration order. */
  lemma CandidatesMembers(st: Store, score: Scorer)
    ensures forall x :: x in Candidates(st, score) <==> IsCandidate(st, score, x)
    ensures InEnumerationOrder(Candidates(st, score))
  {
    forall x: Candidate
      ensures x in Candidates(st, score) <==> IsCandidate(st, score, x)
    {
      CandidatesUpToMember(st, score, |st.contributors|, x);
    }
    CandidatesUpToOrder(st, score, |st.contributors|);
  }

  /** A store without free pairs has no candidates. */
  lemma {:induction false} NoFreePairNoCandidates(st: Store, score: Scorer, m: nat, n: nat)
    requires m <= |st.contributors| && n <= |st.projects|
    requires forall c, p :: !Free(st, c, p)
    ensures CandidatesUpTo(st, score, m) == []
    ensures m < |st.contributors| ==> RowCandidates(st, score, m, n) == []
  {
    if n > 0 && m < |st.contributors| {
      NoFreePairNoCandidates(st, score, m, n - 1);
    }
    if m > 0 {
      NoFreePairNoCandidates(st, score, m - 1, |st.projects|);
    }
  }

  // ---------------------------------------------------------------------------
  // The commit walk
  // ---------------------------------------------------------------------------

  /** One iteration of the commit loop: link the pair if both sides are still unmatched. */
  function CommitStep(st: Store, x: Candidate): (st': Store)
    ensures |st'.contributors| == |st.contributors| && |st'.projects| == |st.projects|
    ensures !Free(st, x.contributor, x.project) ==> st' == st
    ensures Free(st, x.contributor, x.project) ==> !Free(st', x.contributor, x.project)
  {
    if Free(st, x.contributor, x.project) then Link(st, x.contributor, x.project) else st
  }

  /** The commit loop over the first `|xs|` ranked candidates. */
  function CommitAll(st: Store, xs: seq<Candidate>): (committed: Store)
    ensures |committed.contributors| == |st.contributors| && |committed.projects| == |st.projects|
  {
    if xs == [] then st else CommitStep(CommitAll(st, xs[..|xs| - 1]), xs[|xs| - 1])
  }

  /** updateMatches: rank the free pairs, then commit them in rank order. */
  function Cycle(st: Store, score: Scorer): (st': Store)
    ensures |st'.contributors| == |st.contributors| && |st'.projects| == |st.projects|
  {
    CommitAll(st, Rank(Candidates(st, score)))
  }

  /**
   * Contributor `c` either kept its match list, or had none and now has
   * exactly one project, which also had none and now lists exactly `c`.
   */
  predicate ContributorLinkedOnce(st: Store, st': Store, c: int)
    requires SameEntities(st, st') && Live(st, c)
  {
    var before := st.contributors[c].value.matches;
    var after := st'.contributors[c].value.matches;
    after == before
    || (before == [] && |after| == 1 && after[0] < |st.projects|
        && st.projects[after[0]].matches == [] && st'.projects[after[0]].matches == [c])
  }

  /** The same for project `p`, whose one new match is a live contributor. */
  predicate ProjectLinkedOnce(st: Store, st': Store, p: int)
    requires SameEntities(st, st') && 0 <= p < |st.projects|
  {
    var before := st.projects[p].matches;
    var after := st'.projects[p].matches;
    after == before
    || (before == [] && |after| == 1 && Live(st, after[0])
        && st.contributors[after[0]].value.matches == [] && st'.contributors[after[0]].value.matches == [p])
  }

  /** Every participant gains at most one match, and every new match is mutual. */
  predicate LinkedOnce(st: Store, st': Store)
    requires SameEntities(st, st')
  {
    && (forall c :: 0 <= c < |st.contributors| && st.contributors[c].Some? ==> ContributorLinkedOnce(st, st', c))
    && (forall p :: 0 <= p < |st.projects| ==> ProjectLinkedOnce(st, st', p))
  }

  /** Linking a pair that is free in `cur` keeps `cur`'s links to `st` single and mutual. */
  lemma LinkKeepsLinkedOnce(st: Store, cur: Store, c: nat, p: nat)
    requires SameEntities(st, cur) && LinkedOnce(st, cur) && Free(cur, c, p)
    ensures SameEntities(st, Link(cur, c, p)) && LinkedOnce(st, Link(cur, c, p))
  {
    var next := Link(cur, c, p);
    LinkEffect(cur, c, p);
    assert ContributorLinkedOnce(st, cur, c) && ProjectLinkedOnce(st, cur, p);
    forall d | 0 <= d < |st.contributors| && st.contributors[d].Some?
      ensures ContributorLinkedOnce(st, next, d)
    {
      assert ContributorLinkedOnce(st, cur, d);
      if d != c && cur.contributors[d].value.matches != st.contributors[d].value.matches {
        assert cur.contributors[d].value.matches[0] != p;
      }
    }
    forall q | 0 <= q < |st.projects|
      ensures ProjectLinkedOnce(st, next, q)
    {
      assert ProjectLinkedOnce(st, cur, q);
      if q != p && cur.projects[q].matches != st.projects[q].matches {
        assert cur.projects[q].matches[0] != c;
      }
    }
  }

  /** The commit walk only links free pairs, so each side gains at most one, mutual, match. */
  lemma {:induction false} CommitAllLinksOnce(st: Store, xs: seq<Candidate>)
    ensures SameEntities(st, CommitAll(st, xs)) && LinkedOnce(st, CommitAll(st, xs))
  {
    if xs == [] {
      assert forall c :: 0 <= c < |st.contributors| && st.contributors[c].Some? ==> ContributorLinkedOnce(st, st, c);
      assert forall p :: 0 <= p < |st.projects| ==> ProjectLinkedOnce(st, st, p);
    } else {
      var cur := CommitAll(st, xs[..|xs| - 1]);
      var x := xs[|xs| - 1];
      CommitAllLinksOnce(st, xs[..|xs| - 1]);
      if Free(cur, x.contributor, x.project) {
        LinkKeepsLinkedOnce(st, cur, x.contributor, x.project);
      }
    }
  }

  /** A pair that is not free stays not free when some free pair is linked. */
  lemma LinkKeepsTaken(cur: Store, c: nat, p: nat, d: int, q: int)
    requires Free(cur, c, p) && !Free(cur, d, q)
    ensures !Free(Link(cur, c, p), d, q)
  {
    LinkEffect(cur, c, p);
  }

  /** After the walk, no pair it visited is free any more. */
  lemma {:induction false} CommitAllVisits(st: Store, xs: seq<Candidate>)
    ensures forall i :: 0 <= i < |xs| ==> !Free(CommitAll(st, xs), xs[i].contributor, xs[i].project)
  {
    if xs != [] {
      var init := xs[..|xs| - 1];
      var cur := CommitAll(st, init);
      var x := xs[|xs| - 1];
      CommitAllVisits(st, init);
      forall i | 0 <= i < |xs|
        ensures !Free(CommitAll(st, xs), xs[i].contributor, xs[i].project)
      {
        if Free(cur, x.contributor, x.project) {
          LinkEffect(cur, x.contributor, x.project);
          if i < |init| {
            assert xs[i] == init[i];
            LinkKeepsTaken(cur, x.contributor, x.project, xs[i].contributor, xs[i].project);
          }
        } else if i < |init| {
          assert xs[i] == init[i];
        }
      }
    }
  }

  // ---------------------------------------------------------------------------
  // Properties of one cycle
  // ---------------------------------------------------------------------------

  /**
   * A cycle keeps every entity, name and skill list; a participant that had
   * a match gains nothing; one that had none gains at most one, and every new
   * link appears on both sides.
   */
  lemma CycleLinksOnce(st: Store, score: Scorer)
    ensures SameEntities(st, Cycle(st, score)) && LinkedOnce(st, Cycle(st, score))
  {
    CommitAllLinksOnce(st, Rank(Candidates(st, score)));
  }

  /** Match counts that were at most one stay at most one. */
  lemma CycleKeepsCountsAtMostOne(st: Store, score: Scorer)
    ensures SameEntities(st, Cycle(st, score))
    ensures forall c ::
              (0 <= c < |st.contributors| && st.contributors[c].Some? && |st.contributors[c].value.matches| <= 1) ==>
              |Cycle(st, score).contributors[c].value.matches| <= 1
    ensures forall p :: 0 <= p < |st.projects| && |st.projects[p].matches| <= 1 ==>
              |Cycle(st, score).projects[p].matches| <= 1
  {
    var after := Cycle(st, score);
    CycleLinksOnce(st, score);
    forall c | 0 <= c < |st.contributors| && st.contributors[c].Some?
      ensures |after.contributors[c].value.matches| <= 1 || |st.contributors[c].value.matches| > 1
    {
      assert ContributorLinkedOnce(st, after, c);
    }
    forall p | 0 <= p < |st.projects|
      ensures |after.projects[p].matches| <= 1 || |st.projects[p].matches| > 1
    {
      assert ProjectLinkedOnce(st, after, p);
    }
  }

  /** A pair that is not free before a cycle is not free after it. */
  lemma CycleKeepsTaken(st: Store, score: Scorer, c: int, p: int)
    requires !Free(st, c, p)
    ensures !Free(Cycle(st, score), c, p)
  {
    CycleLinksOnce(st, score);
    if Live(st, c) && 0 <= p < |st.projects| {
      assert ContributorLinkedOnce(st, Cycle(st, score), c) && ProjectLinkedOnce(st, Cycle(st, score), p);
    }
  }

  /** After a cycle no live contributor and project are both still unmatched. */
  lemma CycleIsMaximal(st: Store, score: Scorer)
    ensures forall c, p :: !Free(Cycle(st, score), c, p)
  {
    var ranked := Rank(Candidates(st, score));
    CandidatesMembers(st, score);
    RankIsPermutation(Candidates(st, score));
    CommitAllVisits(st, ranked);
    forall c, p
      ensures !Free(Cycle(st, score), c, p)
    {
      if Free(st, c, p) {
        var x := Candidate(PairScore(st, score, c, p), c, p);
        assert IsCandidate(st, score, x);
        assert x in multiset(ranked);
        var i :| 0 <= i < |ranked| && ranked[i] == x;
      } else {
        CycleKeepsTaken(st, score, c, p);
      }
    }
  }

  /** A second cycle with no new entities changes nothing. */
  lemma CycleIsIdempotent(st: Store, score: Scorer)
    ensures Cycle(Cycle(st, score), score) == Cycle(st, score)
  {
    CycleIsMaximal(st, score);
    NoFreePairNoCandidates(Cycle(st, score), score, |Cycle(st, score).contributors|, 0);
  }

  // ---------------------------------------------------------------------------
  // Greediness
  // ---------------------------------------------------------------------------

  /** The scores of `xs` never increase along the list. */
  predicate NonIncreasing(xs: seq<Candidate>)
  {
    forall i, j :: 0 <= i < j < |xs| ==> xs[j].score <= xs[i].score
  }

  /**
   * Candidate `x` of `st` is served in `cur`: its contributor, or its project,
   * is matched to a partner with which it scores at least `x.score`.
   */
  predicate Served(st: Store, score: Scorer, cur: Store, x: Candidate)
    requires SameEntities(st, cur) && IsCandidate(st, score, x)
  {
    (cur.contributors[x.contributor].value.matches != []
     && var q := cur.contributors[x.contributor].value.matches[0];
        q < |st.projects| && PairScore(st, score, x.contributor, q) >= x.score)
    || (cur.projects[x.project].matches != []
        && var d := cur.projects[x.project].matches[0];
           Live(st, d) && PairScore(st, score, d, x.project) >= x.score)
  }

  /** Contributor `c`, unmatched in `st`, is matched in `cur` through a candidate of `xs`. */
  predicate SourcedAt(st: Store, score: Scorer, cur: Store, xs: seq<Candidate>, c: int)
    requires SameEntities(st, cur) && Live(st, c)
  {
    st.contributors[c].value.matches == [] && cur.contributors[c].value.matches != [] ==>
      var q := cur.contributors[c].value.matches[0];
      q < |st.projects| && Candidate(PairScore(st, score, c, q), c, q) in xs
  }

  /** Every contributor matched during the walk is matched through a candidate the walk has visited. */
  predicate Sourced(st: Store, score: Scorer, cur: Store, xs: seq<Candidate>)
    requires SameEntities(st, cur)
  {
    forall c :: 0 <= c < |st.contributors| && st.contributors[c].Some? ==> SourcedAt(st, score, cur, xs, c)
  }

  lemma LinkKeepsEntities(st: Store, cur: Store, c: nat, p: nat)
    requires SameEntities(st, cur) && Free(cur, c, p)
    ensures SameEntities(st, Link(cur, c, p))
  {
    LinkEffect(cur, c, p);
  }

  /** Visiting one more candidate keeps every match traceable to a visited candidate. */
  lemma SourcedStep(st: Store, score: Scorer, cur: Store, xs: seq<Candidate>, x: Candidate)
    requires SameEntities(st, cur) && Sourced(st, score, cur, xs) && IsCandidate(st, score, x)
    requires SameEntities(st, CommitStep(cur, x))
    ensures Sourced(st, score, CommitStep(cur, x), xs + [x])
  {
    var next := CommitStep(cur, x);
    if Free(cur, x.contributor, x.project) {
      LinkEffect(cur, x.contributor, x.project);
    }
    forall c | 0 <= c < |st.contributors| && st.contributors[c].Some?
      ensures SourcedAt(st, score, next, xs + [x], c)
    {
      assert SourcedAt(st, score, cur, xs, c);
      if c != x.contributor || !Free(cur, x.contributor, x.project) {
        assert next.contributors[c] == cur.contributors[c];
      }
    }
  }

  /** A served candidate stays served when some free pair is linked. */
  lemma ServedPersists(st: Store, score: Scorer, cur: Store, x: Candidate, y: Candidate)
    requires SameEntities(st, cur) && IsCandidate(st, score, y) && Served(st, score, cur, y)
    requires SameEntities(st, CommitStep(cur, x))
    ensures Served(st, score, CommitStep(cur, x), y)
  {
    if Free(cur, x.contributor, x.project) {
      LinkEffect(cur, x.contributor, x.project);
    }
  }

  /**
   * When a candidate is visited, it is linked, or one of its sides was linked
   * earlier through a candidate scoring at least as much.
   */
  lemma ServedOnVisit(st: Store, score: Scorer, cur: Store, xs: seq<Candidate>, x: Candidate)
    requires SameEntities(st, cur) && LinkedOnce(st, cur) && Sourced(st, score, cur, xs) && IsCandidate(st, score, x)
    requires forall y :: y in xs ==> x.score <= y.score
    requires SameEntities(st, CommitStep(cur, x))
    ensures Served(st, score, CommitStep(cur, x), x)
  {
    var c, p := x.contributor, x.project;
    if Free(cur, c, p) {
      LinkEffect(cur, c, p);
    } else {
      assert ContributorLinkedOnce(st, cur, c) && ProjectLinkedOnce(st, cur, p);
      if cur.contributors[c].value.matches != [] {
        assert SourcedAt(st, score, cur, xs, c);
      } else {
        var d := cur.projects[p].matches[0];
        assert ContributorLinkedOnce(st, cur, d);
        assert SourcedAt(st, score, cur, xs, d);
      }
    }
  }

  /** Dropping the last candidate keeps the order; the last scores no more than any other. */
  lemma NonIncreasingInit(xs: seq<Candidate>)
    requires NonIncreasing(xs) && xs != []
    ensures NonIncreasing(xs[..|xs| - 1])
    ensures forall y :: y in xs[..|xs| - 1] ==> xs[|xs| - 1].score <= y.score
    ensures forall y :: y in xs[..|xs| - 1] ==> y in xs
  {
  }

  /** Along a walk in non-increasing score order, every visited candidate ends up served. */
  lemma {:induction false} CommitAllServes(st: Store, score: Scorer, xs: seq<Candidate>)
    requires forall x :: x in xs ==> IsCandidate(st, score, x)
    requires NonIncreasing(xs)
    ensures SameEntities(st, CommitAll(st, xs)) && LinkedOnce(st, CommitAll(st, xs))
    ensures Sourced(st, score, CommitAll(st, xs), xs)
    ensures forall i :: 0 <= i < |xs| ==> Served(st, score, CommitAll(st, xs), xs[i])
  {
    CommitAllLinksOnce(st, xs);
    if xs == [] {
      assert forall c :: 0 <= c < |st.contributors| && st.contributors[c].Some? ==> SourcedAt(st, score, st, xs, c);
    } else {
      var init := xs[..|xs| - 1];
      var cur := CommitAll(st, init);
      var x := xs[|xs| - 1];
      NonIncreasingInit(xs);
      CommitAllServes(st, score, init);
      SourcedStep(st, score, cur, init, x);
      assert xs == init + [x];
      forall i | 0 <= i < |xs|
        ensures Served(st, score, CommitAll(st, xs), xs[i])
      {
        if i < |init| {
          assert xs[i] == init[i];
          ServedPersists(st, score, cur, x, init[i]);
        } else {
          ServedOnVisit(st, score, cur, init, x);
        }
      }
    }
  }

  /**
   * The cycle is greedy: of every pair that was free before it, the
   * contributor or the project ends up matched to a partner with which it
   * scores at least as much as the pair itself.
   */
  lemma CycleIsGreedy(st: Store, score: Scorer, c: nat, p: nat)
    requires Free(st, c, p)
    ensures SameEntities(st, Cycle(st, score))
    ensures Served(st, score, Cycle(st, score), Candidate(PairScore(st, score, c, p), c, p))
  {
    var ranked := Rank(Candidates(st, score));
    RankedCandidates(st, score);
    CommitAllServes(st, score, ranked);
    var x := Candidate(PairScore(st, score, c, p), c, p);
    assert x in ranked;
    var i :| 0 <= i < |ranked| && ranked[i] == x;
  }

  /** The ranked list holds exactly the free pairs, highest score first. */
  lemma RankedCandidates(st: Store, score: Scorer)
    ensures forall y :: y in Rank(Candidates(st, score)) <==> IsCandidate(st, score, y)
    ensures NonIncreasing(Rank(Candidates(st, score)))
  {
    var ranked := Rank(Candidates(st, score));
    CandidatesMembers(st, score);
    RankIsPermutation(Candidates(st, score));
    RankOrder(Candidates(st, score));
    forall y
      ensures y in ranked <==> y in Candidates(st, score)
    {
      assert y in ranked <==> y in multiset(ranked);
      assert y in Candidates(st, score) <==> y in multiset(Candidates(st, score));
    }
  }

  // ---------------------------------------------------------------------------
  // The cycle as written
  // ---------------------------------------------------------------------------

  /** The id of the first deleted contributor slot, or the number of slots if there is none. */
  function FirstDeleted(contributors: seq<Option<ContributorEntry>>): (i: nat)
    ensures i <= |contributors|
    ensures i < |contributors| ==> contributors[i].None?
    ensures forall k :: 0 <= k < i ==> contributors[k].Some?
  {
    if contributors == [] || contributors[0].None? then 0 else 1 + FirstDeleted(contributors[1..])
  }

  /**
   * updateMatches as written: the nested loops call `getMatchCount` on every
   * contributor slot, so the first deleted slot raises a TypeError as soon as
   * there is a project to pair it with. Nothing has been changed by then.
   */
  function CycleAsWritten(st: Store, score: Scorer): (r: Result<Store>)
    ensures r.Ok? ==> r.value == Cycle(st, score)
    ensures r.Err? ==> |st.projects| > 0 && r.error.NullDereference?
                       && 0 <= r.error.id < |st.contributors| && st.contributors[r.error.id].None?
  {
    var deleted := FirstDeleted(st.contributors);
    if |st.projects| > 0 && deleted < |st.contributors| then Err(NullDereference(deleted))
    else Ok(Cycle(st, score))
  }

  /** As written, any deleted contributor stops the matching once a project exists. */
  lemma CycleAsWrittenFailsAfterDelete(st: Store, score: Scorer, c: nat)
    requires c < |st.contributors| && st.contributors[c].None? && |st.projects| > 0
    ensures CycleAsWritten(st, score).Err?
    ensures CycleAsWritten(st, score).error.NullDereference? && CycleAsWritten(st, score).error.id <= c
  {
  }

  /** Without deleted slots, the code as written and the corrected cycle agree. */
  lemma CycleAsWrittenWithoutDeletes(st: Store, score: Scorer)
    requires forall c :: 0 <= c < |st.contributors| ==> st.contributors[c].Some?
    ensures CycleAsWritten(st, score) == Ok(Cycle(st, score))
  {
  }
}
