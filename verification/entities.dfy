/**
 * The matchable entities of src/model/Model.ts: a contributor and a project,
 * each holding a skill list and the list of entities on the other side it
 * has been matched to. Both lists are fields that the methods update in
 * place; the match lists hold references, so a contributor and a project
 * can point at each other.
 */
module Entities {
  import opened Skills

  class Contributor {
    var skills: seq<Skill>
    var projects: seq<Project>

    /** A contributor with the given skills and no matches. */
    constructor(skills: seq<Skill>)
      ensures this.skills == skills && projects == []
    {
      this.skills := skills;
      projects := [];
    }

    /** Replace the skills; the matches stay. */
    method UpdateSkills(skills: seq<Skill>)
      modifies this
      ensures this.skills == skills && projects == old(projects)
    {
      this.skills := skills;
    }

    /** Append a matched project; the skills stay. */
    method AddProject(project: Project)
      modifies this
      ensures projects == old(projects) + [project] && skills == old(skills)
    {
      projects := projects + [project];
    }

    /** The number of matched projects. */
    method GetMatchCount() returns (count: nat)
      ensures count == |projects|
    {
      count := |projects|;
    }

    method GetSkills() returns (skills: seq<Skill>)
      ensures skills == this.skills
    {
      skills := this.skills;
    }
  }

  class Project {
    var skills: seq<Skill>
    var contributors: seq<Contributor>

    /** A project with the given skills and no matches. */
    constructor(skills: seq<Skill>)
      ensures this.skills == skills && contributors == []
    {
      this.skills := skills;
      contributors := [];
    }

    /** Replace the skills; the matches stay. */
    method UpdateSkills(skills: seq<Skill>)
      modifies this
      ensures this.skills == skills && contributors == old(contributors)
    {
      this.skills := skills;
    }

    /** Append a matched contributor; the skills stay. */
    method AddContributor(contributor: Contributor)
      modifies this
      ensures contributors == old(contributors) + [contributor] && skills == old(skills)
    {
      contributors := contributors + [contributor];
    }

    /** The number of matched contributors. */
    method GetMatchCount() returns (count: nat)
      ensures count == |contributors|
    {
      count := |contributors|;
    }

    method GetSkills() returns (skills: seq<Skill>)
      ensures skills == this.skills
    {
      skills := this.skills;
    }
  }

  /** Each side lists the other among its matches. */
  predicate Mutual(contributor: Contributor, project: Project)
    reads contributor, project
  {
    project in contributor.projects && contributor in project.contributors
  }

  /**
   * The facade's private `match` on these objects: the contributor adds the
   * project and the project adds the contributor, after which they are
   * mutually matched and each has one more match.
   */
  method Match(contributor: Contributor, project: Project)
    modifies contributor, project
    ensures contributor.projects == old(contributor.projects) + [project]
    ensures project.contributors == old(project.contributors) + [contributor]
    ensures contributor.skills == old(contributor.skills) && project.skills == old(project.skills)
    ensures Mutual(contributor, project)
  {
    contributor.AddProject(project);
    project.AddContributor(contributor);
  }

  /**
   * Two fresh entities matched once: each sees the other as its only match,
   * and the match count of each is one.
   */
  method MatchFreshPair(contributorSkills: seq<Skill>, projectSkills: seq<Skill>)
    returns (contributorCount: nat, projectCount: nat, partnerOfContributor: Project, partnerOfProject: Contributor)
    ensures contributorCount == 1 && projectCount == 1
    ensures partnerOfContributor.skills == projectSkills && partnerOfProject.skills == contributorSkills
    ensures partnerOfContributor.contributors == [partnerOfProject]
    ensures partnerOfProject.projects == [partnerOfContributor]
  {
    var contributor := new Contributor(contributorSkills);
    var project := new Project(projectSkills);
    Match(contributor, project);
    contributorCount := contributor.GetMatchCount();
    projectCount := project.GetMatchCount();
    partnerOfContributor := contributor.projects[0];
    partnerOfProject := project.contributors[0];
  }
}
