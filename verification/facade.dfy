/**
 * ContribMatchFacade (src/controller/ContribMatchFacade.ts): the in-memory
 * store of contributors and projects and the matcher that pairs them.
 *
 * The two arrays of the source are fields that the methods reassign. Ids are
 * indices; a deleted contributor leaves `None` in its slot. Exceptions become
 * `Err`/`Failed` results, and a failing operation changes nothing.
 */
module Facade {
  import opened Optional
  import opened Skills
  import opened Scoring
  import opened Arena
  import opened Ranking
  import opened Matching

  class ContribMatchFacade {
    var contributors: seq<Option<ContributorEntry>>
    var projects: seq<ProjectEntry>

    /** The whole state as a value. */
    function Snapshot(): Store
      reads this
    {
      Store(contributors, projects)
    }

    /** A facade with no contributors and no projects. */
    constructor()
      ensures contributors == [] && projects == []
    {
      contributors := [];
      projects := [];
    }

    /** The private `match`: the contributor appends the project and the project appends the contributor. */
    method Match(c: nat, p: nat)
      requires Live(Snapshot(), c) && p < |projects|
      modifies this
      ensures Snapshot() == Link(old(Snapshot()), c, p)
    {
      var contributor := contributors[c].value;
      var project := projects[p];
      contributors := contributors[c := Some(contributor.(matches := contributor.matches + [p]))];
      projects := projects[p := project.(matches := project.matches + [c])];
    }

    /** A new contributor with no matches; its id is the old number of contributor slots. */
    method CreateContributor(username: string, skills: seq<Skill>) returns (id: nat)
      modifies this
      ensures id == old(|contributors|)
      ensures contributors == old(contributors) + [Some(ContributorEntry(username, skills, []))]
      ensures projects == old(projects)
    {
      contributors := contributors + [Some(ContributorEntry(username, skills, []))];
      id := |contributors| - 1;
    }

    /** A new project with no matches; its id is the old number of projects. */
    method CreateProject(name: string, skills: seq<Skill>) returns (id: nat)
      modifies this
      ensures id == old(|projects|)
      ensures projects == old(projects) + [ProjectEntry(name, skills, [])]
      ensures contributors == old(contributors)
    {
      projects := projects + [ProjectEntry(name, skills, [])];
      id := |projects| - 1;
    }

    /** The contributor slot `id` (`None` once deleted); NotFound outside the slots. */
    method GetContributor(id: int) returns (r: Result<Option<ContributorEntry>>)
      ensures r.Ok? <==> 0 <= id < |contributors|
      ensures r.Ok? ==> r.value == contributors[id]
      ensures r.Err? ==> r.error == NotFound(id)
    {
      if id < 0 || id >= |contributors| {
        return Err(NotFound(id));
      }
      return Ok(contributors[id]);
    }

    /** Project `id`, bounds-checked against the projects (see ProjectLookupAsWritten). */
    method GetProject(id: int) returns (r: Result<ProjectEntry>)
      ensures r.Ok? <==> 0 <= id < |projects|
      ensures r.Ok? ==> r.value == projects[id]
      ensures r.Err? ==> r.error == NotFound(id)
    {
      if id < 0 || id >= |projects| {
        return Err(NotFound(id));
      }
      return Ok(projects[id]);
    }

    /** Replace the skills of contributor `id`, and nothing else. */
    method EditContributor(id: int, skills: seq<Skill>) returns (status: Status)
      modifies this
      ensures !(0 <= id < old(|contributors|)) ==>
                status == Failed(NotFound(id)) && contributors == old(contributors)
      ensures 0 <= id < old(|contributors|) && old(contributors[id]).None? ==>
                status == Failed(NullDereference(id)) && contributors == old(contributors)
      ensures 0 <= id < old(|contributors|) && old(contributors[id]).Some? ==>
                status == Done
                && contributors == old(contributors)[id := Some(old(contributors[id]).value.(skills := skills))]
      ensures projects == old(projects)
    {
      if !(0 <= id < |contributors|) {
        return Failed(NotFound(id));
      }
      if contributors[id].None? {
        return Failed(NullDereference(id));
      }
      contributors := contributors[id := Some(contributors[id].value.(skills := skills))];
      return Done;
    }

    /** Replace the skills of project `id`, and nothing else. */
    method EditProject(id: int, skills: seq<Skill>) returns (status: Status)
      modifies this
      ensures !(0 <= id < old(|projects|)) ==> status == Failed(NotFound(id)) && projects == old(projects)
      ensures 0 <= id < old(|projects|) ==>
                status == Done && projects == old(projects)[id := old(projects[id]).(skills := skills)]
      ensures contributors == old(contributors)
    {
      if !(0 <= id < |projects|) {
        return Failed(NotFound(id));
      }
      projects := projects[id := projects[id].(skills := skills)];
      return Done;
    }

    /**
     * Soft delete: slot `id` becomes `None`, the number of slots stays, and
     * the projects keep whatever matches they had with it.
     */
    method DeleteContributor(id: int) returns (status: Status)
      modifies this
      ensures !(0 <= id < old(|contributors|)) ==>
                status == Failed(NotFound(id)) && contributors == old(contributors)
      ensures 0 <= id < old(|contributors|) ==>
                status == Done && contributors == old(contributors)[id := None]
      ensures projects == old(projects)
    {
      if !(0 <= id < |contributors|) {
        return Failed(NotFound(id));
      }
      contributors := contributors[id := None];
      return Done;
    }

    /** The ids of the projects contributor `id` is matched to. */
    method GetContributorMatches(id: int) returns (r: Result<seq<nat>>)
      ensures !(0 <= id < |contributors|) <==> r == Err(NotFound(id))
      ensures 0 <= id < |contributors| && contributors[id].None? <==> r == Err(NullDereference(id))
      ensures r.Ok? <==> Live(Snapshot(), id)
      ensures r.Ok? ==> r.value == contributors[id].value.matches
    {
      if !(0 <= id < |contributors|) {
        return Err(NotFound(id));
      }
      if contributors[id].None? {
        return Err(NullDereference(id));
      }
      return Ok(contributors[id].value.matches);
    }

    /** The ids of the contributors project `id` is matched to. */
    method GetProjectMatches(id: int) returns (r: Result<seq<nat>>)
      ensures r.Ok? <==> 0 <= id < |projects|
      ensures r.Ok? ==> r.value == projects[id].matches
      ensures r.Err? ==> r.error == NotFound(id)
    {
      if !(0 <= id < |projects|) {
        return Err(NotFound(id));
      }
      return Ok(projects[id].matches);
    }

    /**
     * The first half of updateMatches: every pair whose two sides are both
     * unmatched, with its computeScore, contributors in the outer loop and
     * projects in the inner one.
     */
    method CollectCandidates() returns (possibleMatches: seq<Candidate>)
      ensures possibleMatches == Candidates(Snapshot(), Score)
      ensures forall x :: x in possibleMatches <==> IsCandidate(Snapshot(), Score, x)
      ensures InEnumerationOrder(possibleMatches)
    {
      possibleMatches := [];
      for i := 0 to |contributors|
        invariant possibleMatches == CandidatesUpTo(Snapshot(), Score, i)
      {
        for j := 0 to |projects|
          invariant possibleMatches == CandidatesUpTo(Snapshot(), Score, i) + RowCandidates(Snapshot(), Score, i, j)
        {
          if contributors[i].Some? && contributors[i].value.matches == [] && projects[j].matches == [] {
            var score := ComputeScore(contributors[i].value.skills, projects[j].skills);
            possibleMatches := possibleMatches + [Candidate(score, i, j)];
          }
        }
      }
      CandidatesMembers(Snapshot(), Score);
    }

    /**
     * The last part of updateMatches: walk the ranked pairs and link each one
     * whose two sides are both still unmatched.
     */
    method Commit(ranked: seq<Candidate>)
      requires forall x :: x in ranked ==> Free(Snapshot(), x.contributor, x.project)
      modifies this
      ensures Snapshot() == CommitAll(old(Snapshot()), ranked)
    {
      ghost var start := Snapshot();
      for k := 0 to |ranked|
        invariant SameEntities(start, Snapshot())
        invariant Snapshot() == CommitAll(start, ranked[..k])
      {
        var candidate := ranked[k];
        assert candidate in ranked;
        assert ranked[..k + 1][..k] == ranked[..k];
        if contributors[candidate.contributor].value.matches == [] && projects[candidate.project].matches == [] {
          LinkKeepsEntities(start, Snapshot(), candidate.contributor, candidate.project);
          Match(candidate.contributor, candidate.project);
        }
      }
      assert ranked[..|ranked|] == ranked;
    }

    /**
     * One greedy matching cycle: collect the free pairs with their scores,
     * sort them ascending by score and reverse, then link each pair whose
     * sides are both still unmatched.
     */
    method UpdateMatches()
      modifies this
      ensures Snapshot() == Cycle(old(Snapshot()), Score)
    {
      var possibleMatches := CollectCandidates();
      possibleMatches := StableSort(possibleMatches);
      possibleMatches := Reversed(possibleMatches);
      RankedCandidates(Snapshot(), Score);
      Commit(possibleMatches);
    }
  }

  /**
   * getProject as written: the id is checked against the number of
   * contributor slots, then the project array is indexed; an index past its
   * end yields `undefined`, here `None`.
   */
  function ProjectLookupAsWritten(contributorCount: nat, projects: seq<ProjectEntry>, id: int): (r: Result<Option<ProjectEntry>>)
    ensures r.Ok? <==> 0 <= id < contributorCount
    ensures r.Err? ==> r.error == NotFound(id)
    ensures r.Ok? && r.value.Some? ==> id < |projects| && r.value.value == projects[id]
  {
    if id < 0 || id >= contributorCount then Err(NotFound(id))
    else if id < |projects| then Ok(Some(projects[id]))
    else Ok(None)
  }

  /** With fewer contributors than projects, an existing project is reported missing. */
  lemma ProjectLookupAsWrittenRejectsExistingProject(project: ProjectEntry)
    ensures ProjectLookupAsWritten(0, [project], 0) == Err(NotFound(0))
  {
  }

  /** With more contributors than projects, a missing project is returned as `undefined`. */
  lemma ProjectLookupAsWrittenReturnsUndefined()
    ensures ProjectLookupAsWritten(1, [], 0) == Ok(None)
  {
  }

  /** The two checks coincide exactly when the id falls on the same side of both bounds. */
  lemma ProjectLookupAsWrittenAgrees(contributorCount: nat, projects: seq<ProjectEntry>, id: int)
    requires contributorCount == |projects|
    ensures ProjectLookupAsWritten(contributorCount, projects, id)
            == if 0 <= id < |projects| then Ok(Some(projects[id])) else Err(NotFound(id))
  {
  }
}
