/**
 * The matching cycle on small stores, and the facade's test scenarios
 * (test/ContribMatchFacade.test.ts) replayed on the model.
 *
 * The small-store lemmas hold for any scorer; the scenarios instantiate them
 * with computeScore through the concrete scores proved in `Scoring`.
 */
module Scenarios {
  import opened Optional
  import opened Skills
  import opened Scoring
  import opened Arena
  import opened Ranking
  import opened Matching
  import opened Facade

  // ---------------------------------------------------------------------------
  // The cycle on small stores
  // ---------------------------------------------------------------------------

  /** One free contributor and one free project are always matched. */
  lemma CycleOfOnePair(st: Store, score: Scorer)
    requires |st.contributors| == 1 && |st.projects| == 1 && Free(st, 0, 0)
    ensures Cycle(st, score) == Link(st, 0, 0)
  {
    var x := Candidate(PairScore(st, score, 0, 0), 0, 0);
    assert RowCandidates(st, score, 0, 0) == [];
    assert RowCandidates(st, score, 0, 1) == [] + [x];
    assert CandidatesUpTo(st, score, 0) == [];
    assert CandidatesUpTo(st, score, 1) == [] + [x];
    RankOfOne(x);
    assert CommitAll(st, [x]) == CommitStep(st, x) by { assert [x][..0] == []; }
  }

  lemma RankOfOne(x: Candidate)
    ensures Rank([x]) == [x]
  {
    assert StableSort([x]) == Insert(StableSort([]), x) by { assert [x][..0] == []; }
  }

  /** The candidates of two free contributors and one free project, in enumeration order. */
  lemma CandidatesOfTwoByOne(st: Store, score: Scorer)
    requires |st.contributors| == 2 && |st.projects| == 1 && Free(st, 0, 0) && Free(st, 1, 0)
    ensures Candidates(st, score)
            == [Candidate(PairScore(st, score, 0, 0), 0, 0), Candidate(PairScore(st, score, 1, 0), 1, 0)]
  {
    var x0 := Candidate(PairScore(st, score, 0, 0), 0, 0);
    var x1 := Candidate(PairScore(st, score, 1, 0), 1, 0);
    assert RowCandidates(st, score, 0, 0) == [] && RowCandidates(st, score, 1, 0) == [];
    assert RowCandidates(st, score, 0, 1) == [] + [x0];
    assert RowCandidates(st, score, 1, 1) == [] + [x1];
    assert CandidatesUpTo(st, score, 0) == [];
    assert CandidatesUpTo(st, score, 1) == [] + [x0];
    assert CandidatesUpTo(st, score, 2) == [x0] + [x1];
  }

  /**
   * Two candidates in enumeration order: the higher score ranks first; on a
   * tie the one enumerated later does.
   */
  lemma RankOfTwo(x0: Candidate, x1: Candidate)
    ensures Rank([x0, x1]) == if x0.score > x1.score then [x0, x1] else [x1, x0]
  {
    assert [x0, x1][..1] == [x0];
    assert StableSort([x0]) == [x0] by { assert [x0][..0] == []; }
    assert StableSort([x0, x1]) == Insert([x0], x1);
    var sorted := if x0.score > x1.score then [x1, x0] else [x0, x1];
    if x0.score > x1.score {
      assert [x0][..0] == [];
      assert Insert([x0], x1) == Insert([], x1) + [x0] == [x1] + [x0];
    } else {
      assert Insert([x0], x1) == [x0] + [x1];
    }
    assert Rank([x0, x1]) == Reversed(sorted);
    assert Reversed(sorted) == [sorted[1], sorted[0]];
  }

  /**
   * Two free contributors compete for one free project: the one with the
   * higher score wins it, and on a tie the contributor created later wins,
   * because the reversed stable sort puts it first.
   */
  lemma CycleOfTwoContributorsOneProject(st: Store, score: Scorer)
    requires |st.contributors| == 2 && |st.projects| == 1 && Free(st, 0, 0) && Free(st, 1, 0)
    ensures Cycle(st, score)
            == if PairScore(st, score, 0, 0) > PairScore(st, score, 1, 0) then Link(st, 0, 0) else Link(st, 1, 0)
  {
    var x0 := Candidate(PairScore(st, score, 0, 0), 0, 0);
    var x1 := Candidate(PairScore(st, score, 1, 0), 1, 0);
    CandidatesOfTwoByOne(st, score);
    RankOfTwo(x0, x1);
    var winner := if x0.score > x1.score then x0 else x1;
    var loser := if x0.score > x1.score then x1 else x0;
    LinkEffect(st, winner.contributor, 0);
    assert [winner, loser][..1] == [winner] && [winner][..0] == [];
    assert CommitAll(st, [winner]) == CommitStep(st, winner);
    assert CommitAll(st, [winner, loser]) == CommitStep(CommitStep(st, winner), loser);
  }

  /** The candidates of two free contributors and two free projects, in enumeration order. */
  lemma CandidatesOfTwoByTwo(st: Store, score: Scorer)
    requires |st.contributors| == 2 && |st.projects| == 2 && Free(st, 0, 0) && Free(st, 1, 1)
    ensures Candidates(st, score)
            == [Candidate(PairScore(st, score, 0, 0), 0, 0), Candidate(PairScore(st, score, 0, 1), 0, 1),
                Candidate(PairScore(st, score, 1, 0), 1, 0), Candidate(PairScore(st, score, 1, 1), 1, 1)]
  {
    var x00, x01 := Candidate(PairScore(st, score, 0, 0), 0, 0), Candidate(PairScore(st, score, 0, 1), 0, 1);
    var x10, x11 := Candidate(PairScore(st, score, 1, 0), 1, 0), Candidate(PairScore(st, score, 1, 1), 1, 1);
    assert Free(st, 0, 1) && Free(st, 1, 0);
    assert RowCandidates(st, score, 0, 0) == [] && RowCandidates(st, score, 1, 0) == [];
    assert RowCandidates(st, score, 0, 1) == [] + [x00];
    assert RowCandidates(st, score, 1, 1) == [] + [x10];
    assert RowCandidates(st, score, 0, 2) == [x00] + [x01];
    assert RowCandidates(st, score, 1, 2) == [x10] + [x11];
    assert CandidatesUpTo(st, score, 0) == [];
    assert CandidatesUpTo(st, score, 1) == [] + [x00, x01];
    assert CandidatesUpTo(st, score, 2) == [x00, x01] + [x10, x11];
  }

  /** The crossed candidates' first two are already in ascending order. */
  lemma CrossedSortOfTwo(best: int, worst: int)
    requires worst < best
    ensures StableSort([Candidate(worst, 0, 0), Candidate(best, 0, 1)]) == [Candidate(worst, 0, 0), Candidate(best, 0, 1)]
  {
    var x00, x01 := Candidate(worst, 0, 0), Candidate(best, 0, 1);
    assert [x00, x01][..1] == [x00];
    assert StableSort([x00]) == [x00] by { assert [x00][..0] == []; }
    assert StableSort([x00, x01]) == Insert([x00], x01);
    assert Insert([x00], x01) == [x00] + [x01];
  }

  /** The third crossed candidate ties with the second and goes after it. */
  lemma CrossedSortOfThree(best: int, worst: int)
    requires worst < best
    ensures StableSort([Candidate(worst, 0, 0), Candidate(best, 0, 1), Candidate(best, 1, 0)])
            == [Candidate(worst, 0, 0), Candidate(best, 0, 1), Candidate(best, 1, 0)]
  {
    var x00, x01, x10 := Candidate(worst, 0, 0), Candidate(best, 0, 1), Candidate(best, 1, 0);
    assert [x00, x01, x10][..2] == [x00, x01];
    CrossedSortOfTwo(best, worst);
    assert StableSort([x00, x01, x10]) == Insert([x00, x01], x10);
    assert Insert([x00, x01], x10) == [x00, x01] + [x10];
  }

  /** The last crossed candidate, a worse score, moves back past the two better ones. */
  lemma CrossedInsertLast(best: int, worst: int)
    requires worst < best
    ensures Insert([Candidate(worst, 0, 0), Candidate(best, 0, 1), Candidate(best, 1, 0)], Candidate(worst, 1, 1))
            == [Candidate(worst, 0, 0), Candidate(worst, 1, 1), Candidate(best, 0, 1), Candidate(best, 1, 0)]
  {
    var x00, x01, x10 := Candidate(worst, 0, 0), Candidate(best, 0, 1), Candidate(best, 1, 0);
    var x11 := Candidate(worst, 1, 1);
    assert Insert([x00], x11) == [x00, x11] by { assert [x00][..0] == []; }
    assert Insert([x00, x01], x11) == [x00, x11, x01] by { assert [x00, x01][..1] == [x00]; }
    assert [x00, x01, x10][..2] == [x00, x01];
  }

  /** Crossed candidates: the two better pairs first, each score level in reverse enumeration order. */
  lemma RankOfCrossed(best: int, worst: int)
    requires worst < best
    ensures Rank([Candidate(worst, 0, 0), Candidate(best, 0, 1), Candidate(best, 1, 0), Candidate(worst, 1, 1)])
            == [Candidate(best, 1, 0), Candidate(best, 0, 1), Candidate(worst, 1, 1), Candidate(worst, 0, 0)]
  {
    var x00, x01 := Candidate(worst, 0, 0), Candidate(best, 0, 1);
    var x10, x11 := Candidate(best, 1, 0), Candidate(worst, 1, 1);
    var xs := [x00, x01, x10, x11];
    assert xs[..3] == [x00, x01, x10];
    CrossedSortOfThree(best, worst);
    CrossedInsertLast(best, worst);
    assert StableSort(xs) == [x00, x11, x01, x10];
  }

  /** Committing the crossed ranking links the two better pairs and then finds nothing free. */
  lemma CommitOfCrossed(st: Store, ranked: seq<Candidate>)
    requires |st.contributors| == 2 && |st.projects| == 2
    requires Free(st, 0, 0) && Free(st, 1, 1)
    requires |ranked| == 4 && ranked[0].contributor == 1 && ranked[0].project == 0
    requires ranked[1].contributor == 0 && ranked[1].project == 1
    requires ranked[2].contributor == 1 && ranked[2].project == 1
    requires ranked[3].contributor == 0 && ranked[3].project == 0
    ensures CommitAll(st, ranked) == Link(Link(st, 1, 0), 0, 1)
  {
    LinkEffect(st, 1, 0);
    var st1 := Link(st, 1, 0);
    LinkEffect(st1, 0, 1);
    var st2 := Link(st1, 0, 1);
    assert ranked[..1][..0] == [];
    assert ranked[..2][..1] == ranked[..1];
    assert ranked[..3][..2] == ranked[..2];
    assert ranked[..4][..3] == ranked[..3];
    assert CommitAll(st, ranked[..1]) == st1;
    assert CommitAll(st, ranked[..2]) == st2;
    assert CommitAll(st, ranked[..3]) == st2;
    assert ranked[..4] == ranked;
  }

  /**
   * Two contributors and two projects where each contributor fits the other
   * diagonal better: both best pairs are linked, the one with the later
   * contributor first.
   */
  lemma CycleOfCrossedPairs(st: Store, score: Scorer)
    requires |st.contributors| == 2 && |st.projects| == 2
    requires Free(st, 0, 0) && Free(st, 1, 1)
    requires PairScore(st, score, 0, 1) == PairScore(st, score, 1, 0)
    requires PairScore(st, score, 0, 0) == PairScore(st, score, 1, 1)
    requires PairScore(st, score, 0, 0) < PairScore(st, score, 0, 1)
    ensures Rank(Candidates(st, score))
            == [Candidate(PairScore(st, score, 1, 0), 1, 0), Candidate(PairScore(st, score, 0, 1), 0, 1),
                Candidate(PairScore(st, score, 1, 1), 1, 1), Candidate(PairScore(st, score, 0, 0), 0, 0)]
    ensures Cycle(st, score) == Link(Link(st, 1, 0), 0, 1)
  {
    CandidatesOfTwoByTwo(st, score);
    RankOfCrossed(PairScore(st, score, 0, 1), PairScore(st, score, 0, 0));
    CommitOfCrossed(st, Rank(Candidates(st, score)));
  }

  // ---------------------------------------------------------------------------
  // The test scenarios
  // ---------------------------------------------------------------------------

  /** A single perfect match: the contributor and the project are paired. */
  method SinglePerfectMatch()
    returns (contributorMatches: Result<seq<nat>>, projectMatches: Result<seq<nat>>,
             projectName: string, username: string)
    ensures contributorMatches == Ok([0]) && projectMatches == Ok([0])
    ensures projectName == "project1" && username == "contributor1"
  {
    var facade := new ContribMatchFacade();
    var contributorId := facade.CreateContributor("contributor1", [Skill("TypeScript", ADVANCED)]);
    var projectId := facade.CreateProject("project1", [Skill("TypeScript", ADVANCED)]);
    ghost var st := facade.Snapshot();
    CycleOfOnePair(st, Score);
    LinkEffect(st, 0, 0);
    facade.UpdateMatches();
    contributorMatches := facade.GetContributorMatches(contributorId);
    projectMatches := facade.GetProjectMatches(projectId);
    var project := facade.GetProject(contributorMatches.value[0]);
    projectName := project.value.name;
    var contributor := facade.GetContributor(projectMatches.value[0]);
    username := contributor.value.value.username;
  }

  /**
   * Two contributors compete for one project: the second contributor wins
   * it, and the first is left without a match.
   */
  method CompetingContributors(firstSkills: seq<Skill>, secondSkills: seq<Skill>, projectSkills: seq<Skill>)
    returns (firstMatches: Result<seq<nat>>, secondMatches: Result<seq<nat>>,
             projectMatches: Result<seq<nat>>, username: string)
    requires Score(firstSkills, projectSkills) <= Score(secondSkills, projectSkills)
    ensures firstMatches == Ok([]) && secondMatches == Ok([0]) && projectMatches == Ok([1])
    ensures username == "contributor2"
  {
    var facade := new ContribMatchFacade();
    var firstId := facade.CreateContributor("contributor1", firstSkills);
    var secondId := facade.CreateContributor("contributor2", secondSkills);
    var projectId := facade.CreateProject("project1", projectSkills);
    ghost var st := facade.Snapshot();
    CycleOfTwoContributorsOneProject(st, Score);
    LinkEffect(st, 1, 0);
    facade.UpdateMatches();
    firstMatches := facade.GetContributorMatches(firstId);
    secondMatches := facade.GetContributorMatches(secondId);
    projectMatches := facade.GetProjectMatches(projectId);
    var contributor := facade.GetContributor(projectMatches.value[0]);
    username := contributor.value.value.username;
  }

  /** A perfect match is preferred to a fully imperfect one. */
  method PerfectOverImperfect()
    returns (secondMatches: Result<seq<nat>>, projectMatches: Result<seq<nat>>, username: string)
    ensures secondMatches == Ok([0]) && projectMatches == Ok([1]) && username == "contributor2"
  {
    ScoreOfMissingSkill();
    ScoreOfPerfectMatch();
    var _, second, project, name :=
      CompetingContributors([], [Skill("TypeScript", ADVANCED)], [Skill("TypeScript", ADVANCED)]);
    secondMatches, projectMatches, username := second, project, name;
  }

  /** The contributor with the right skill at a close level beats one with an unrelated skill. */
  method PairBySkill()
    returns (secondMatches: Result<seq<nat>>, projectMatches: Result<seq<nat>>, username: string)
    ensures secondMatches == Ok([0]) && projectMatches == Ok([1]) && username == "contributor2"
  {
    ScoreOfUnrelatedSkills("JavaScript", "TypeScript");
    ScoreOfCloseLevel();
    var _, second, project, name :=
      CompetingContributors([Skill("JavaScript", ADVANCED)], [Skill("TypeScript", MEDIUM)],
                            [Skill("TypeScript", ADVANCED)]);
    secondMatches, projectMatches, username := second, project, name;
  }

  /**
   * Two perfect matches across: the Python contributor gets the Python
   * project and the Rust contributor the Rust project.
   */
  method CrossedPerfectMatches()
    returns (matches1: Result<seq<nat>>, matches2: Result<seq<nat>>,
             projectMatches1: Result<seq<nat>>, projectMatches2: Result<seq<nat>>,
             projectName1: string, projectName2: string)
    ensures matches1 == Ok([1]) && matches2 == Ok([0])
    ensures projectMatches1 == Ok([1]) && projectMatches2 == Ok([0])
    ensures projectName1 == "project2" && projectName2 == "project1"
  {
    var python, rust := Skill("Python", ADVANCED), Skill("Rust", ADVANCED);
    var facade := new ContribMatchFacade();
    var contributorId1 := facade.CreateContributor("contributor1", [python]);
    var contributorId2 := facade.CreateContributor("contributor2", [rust]);
    var projectId1 := facade.CreateProject("project1", [rust]);
    var projectId2 := facade.CreateProject("project2", [python]);
    ScoreOfSameSkill(python, python);
    ScoreOfSameSkill(rust, rust);
    ScoreOfUnrelatedSkills("Python", "Rust");
    ScoreOfUnrelatedSkills("Rust", "Python");
    ghost var st := facade.Snapshot();
    CycleOfCrossedPairs(st, Score);
    LinkEffect(st, 1, 0);
    LinkEffect(Link(st, 1, 0), 0, 1);
    facade.UpdateMatches();
    matches1 := facade.GetContributorMatches(contributorId1);
    matches2 := facade.GetContributorMatches(contributorId2);
    projectMatches1 := facade.GetProjectMatches(projectId1);
    projectMatches2 := facade.GetProjectMatches(projectId2);
    var project1 := facade.GetProject(matches1.value[0]);
    projectName1 := project1.value.name;
    var project2 := facade.GetProject(matches2.value[0]);
    projectName2 := project2.value.name;
  }

  /**
   * After a contributor is deleted, updateMatches as written fails on the
   * deleted slot, while the corrected cycle still matches the remaining
   * contributor.
   */
  method MatchAfterDelete(skills: seq<Skill>)
    returns (asWritten: Result<Store>, remainingMatches: Result<seq<nat>>, deletedMatches: Result<seq<nat>>)
    ensures asWritten == Err(NullDereference(0))
    ensures remainingMatches == Ok([0]) && deletedMatches == Err(NullDereference(0))
  {
    var facade := new ContribMatchFacade();
    var deletedId := facade.CreateContributor("contributor1", skills);
    var remainingId := facade.CreateContributor("contributor2", skills);
    var _ := facade.CreateProject("project1", skills);
    var _ := facade.DeleteContributor(deletedId);
    asWritten := CycleAsWritten(facade.Snapshot(), Score);
    ghost var st := facade.Snapshot();
    CycleWithDeletedFirst(st, Score);
    LinkEffect(st, 1, 0);
    facade.UpdateMatches();
    remainingMatches := facade.GetContributorMatches(remainingId);
    deletedMatches := facade.GetContributorMatches(deletedId);
  }

  /** A deleted first slot is skipped: the cycle pairs the live contributor 1 with project 0. */
  lemma CycleWithDeletedFirst(st: Store, score: Scorer)
    requires |st.contributors| == 2 && |st.projects| == 1
    requires st.contributors[0].None? && Free(st, 1, 0)
    ensures Cycle(st, score) == Link(st, 1, 0)
  {
    var x := Candidate(PairScore(st, score, 1, 0), 1, 0);
    assert RowCandidates(st, score, 0, 0) == [] && RowCandidates(st, score, 1, 0) == [];
    assert RowCandidates(st, score, 0, 1) == [];
    assert RowCandidates(st, score, 1, 1) == [] + [x];
    assert CandidatesUpTo(st, score, 1) == [];
    assert Candidates(st, score) == [x];
    assert StableSort([x]) == [x] by { assert [x][..0] == []; }
    assert Rank([x]) == [x];
    assert CommitAll(st, [x]) == CommitStep(st, x) by { assert [x][..0] == []; }
  }

  /** getProject as written, on a store with one project and no contributors. */
  method ProjectLookupScenario(skills: seq<Skill>)
    returns (asWritten: Result<Option<ProjectEntry>>, corrected: Result<ProjectEntry>)
    ensures asWritten == Err(NotFound(0))
    ensures corrected == Ok(ProjectEntry("project1", skills, []))
  {
    var facade := new ContribMatchFacade();
    var projectId := facade.CreateProject("project1", skills);
    asWritten := ProjectLookupAsWritten(|facade.contributors|, facade.projects, projectId);
    corrected := facade.GetProject(projectId);
  }
}
