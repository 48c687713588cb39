/**
 * The state of ContribMatchFacade (src/controller/ContribMatchFacade.ts) as a
 * value: two id-addressed lists of entities. The id of an entity is its index
 * in its list. A deleted contributor leaves `None` in its slot.
 *
 * Each entity is a name, a skill list and a match list, in the shape the
 * facade uses them (src/model/Model.ts with a name added). A match list holds
 * the ids of the entities on the other side rather than the objects.
 *
 * The same operations on the objects themselves (`match`, `updateSkills`,
 * `addProject`, `addContributor`) are modelled in entities.dfy, on the
 * reference-holding classes of src/model/Model.ts. The facade is modelled on
 * these values instead, because it addresses entities by id, deletes them by
 * nulling a slot, and needs its whole state as one value to state the
 * matching cycle and its lemmas.
 */
module Arena {
  import opened Optional
  import opened Skills

  datatype ContributorEntry = ContributorEntry(username: string, skills: seq<Skill>, matches: seq<nat>)

  datatype ProjectEntry = ProjectEntry(name: string, skills: seq<Skill>, matches: seq<nat>)

  datatype Store = Store(contributors: seq<Option<ContributorEntry>>, projects: seq<ProjectEntry>)

  /**
   * The exceptions the facade lets escape: its own NotFoundError, and the
   * TypeError raised when it calls a method on a deleted (`null`) slot.
   */
  datatype Error = NotFound(id: int) | NullDereference(id: int)

  datatype Result<T> = Ok(value: T) | Err(error: Error)

  /** The result of an operation that returns nothing. */
  datatype Status = Done | Failed(error: Error)

  /** Contributor `c` exists and has not been deleted. */
  predicate Live(st: Store, c: int)
  {
    0 <= c < |st.contributors| && st.contributors[c].Some?
  }

  /** Both sides exist and neither has a match yet: `getMatchCount() === 0` on both. */
  predicate Free(st: Store, c: int, p: int)
    ensures Free(st, c, p) <==>
              Live(st, c) && 0 <= p < |st.projects|
              && |st.contributors[c].value.matches| == 0 && |st.projects[p].matches| == 0
  {
    Live(st, c) && 0 <= p < |st.projects|
    && st.contributors[c].value.matches == [] && st.projects[p].matches == []
  }

  /**
   * A scoring function on a contributor's and a project's skill lists.
   * updateMatches uses computeScore (`Scoring.Score`); the properties of the
   * matching cycle hold for any scorer.
   */
  type Scorer = (seq<Skill>, seq<Skill>) -> int

  /** The score of a contributor and a project of the store. */
  function PairScore(st: Store, score: Scorer, c: nat, p: nat): int
    requires Live(st, c) && p < |st.projects|
  {
    score(st.contributors[c].value.skills, st.projects[p].skills)
  }

  /**
   * Only the skills enter a pair's score, so two stores with the same entities
   * give every pair the same score: linking pairs during the commit loop
   * never changes the scores computed before it.
   */
  lemma PairScoreKeptBySameEntities(st: Store, st': Store, score: Scorer, c: nat, p: nat)
    requires SameEntities(st, st') && Live(st, c) && p < |st.projects|
    ensures Live(st', c) && p < |st'.projects|
    ensures PairScore(st', score, c, p) == PairScore(st, score, c, p)
  {
  }

  /** The private `match`: each side appends the other to its match list. */
  function Link(st: Store, c: nat, p: nat): (linked: Store)
    requires Live(st, c) && p < |st.projects|
    ensures |linked.contributors| == |st.contributors| && |linked.projects| == |st.projects|
    ensures Live(linked, c)
    ensures |linked.contributors[c].value.matches| == |st.contributors[c].value.matches| + 1
    ensures |linked.projects[p].matches| == |st.projects[p].matches| + 1
  {
    var contributor := st.contributors[c].value;
    var project := st.projects[p];
    Store(st.contributors[c := Some(contributor.(matches := contributor.matches + [p]))],
          st.projects[p := project.(matches := project.matches + [c])])
  }

  /** Two stores hold the same entities with the same names and skills; only match lists may differ. */
  predicate SameEntities(st: Store, st': Store)
  {
    && |st'.contributors| == |st.contributors|
    && |st'.projects| == |st.projects|
    && (forall c :: 0 <= c < |st.contributors| ==>
          st'.contributors[c].Some? == st.contributors[c].Some?
          && (st.contributors[c].Some? ==>
                st'.contributors[c].value.username == st.contributors[c].value.username
                && st'.contributors[c].value.skills == st.contributors[c].value.skills))
    && (forall p :: 0 <= p < |st.projects| ==>
          st'.projects[p].name == st.projects[p].name && st'.projects[p].skills == st.projects[p].skills)
  }

  /** Every match list of `st` is a prefix of the same list in `st'`: matches are only ever appended. */
  predicate Extends(st: Store, st': Store)
    requires SameEntities(st, st')
  {
    && (forall c :: 0 <= c < |st.contributors| && st.contributors[c].Some? ==>
          var before := st.contributors[c].value.matches;
          var after := st'.contributors[c].value.matches;
          |before| <= |after| && after[..|before|] == before)
    && (forall p :: 0 <= p < |st.projects| ==>
          |st.projects[p].matches| <= |st'.projects[p].matches|
          && st'.projects[p].matches[..|st.projects[p].matches|] == st.projects[p].matches)
  }

  /**
   * Linking a free pair changes only the match lists of its two sides, each
   * gaining exactly the other.
   */
  lemma LinkEffect(st: Store, c: nat, p: nat)
    requires Free(st, c, p)
    ensures SameEntities(st, Link(st, c, p)) && Extends(st, Link(st, c, p))
    ensures Link(st, c, p).contributors[c].value.matches == [p]
    ensures Link(st, c, p).projects[p].matches == [c]
    ensures forall d :: 0 <= d < |st.contributors| && d != c ==> Link(st, c, p).contributors[d] == st.contributors[d]
    ensures forall q :: 0 <= q < |st.projects| && q != p ==> Link(st, c, p).projects[q] == st.projects[q]
  {
  }
}
