# ContribMatch matching engine in Dafny

ContribMatch pairs open-source contributors with projects by skill. Each side
lists skills: a name and a proficiency from NONE to ADVANCED. A compatibility
score sums a per-skill term over the names either side lists. The facade keeps
contributors and projects in two id-addressed arrays. Its `updateMatches` runs
one greedy cycle:

- collect every pair whose two sides are both unmatched;
- sort the pairs ascending by score with the stable `Array.prototype.sort`, then reverse;
- link each pair whose two sides are still unmatched.

The project models:

- the proficiency scale and the skill record (`skills.dfy`);
- the score, as specification functions plus the three loops of computeScore.ts as methods proved equal to them (`score.dfy`);
- the entity classes of Model.ts (`entities.dfy`) and the write-once ids of model.ts (`identity.dfy`);
- the facade as a class over two sequences (`facade.dfy`). Its state as a value and the cycle's specification are in `arena.dfy`, `ranking.dfy` and `matching.dfy`;
- the facade's test scenarios, replayed as methods (`scenarios.dfy`).

The matching lemmas take the scorer as a parameter (`Arena.Scorer`), so they
hold for any scoring function. The facade instantiates them with
`Scoring.Score`.

Where the facade and the entity files disagree, the model follows the
facade's evident intent:

- The facade constructs entities with a name and skills (src/controller/ContribMatchFacade.ts:43, 53), and reads their match lists with `getMatches` (lines 160, 172).
- Neither model file has such a constructor or `getMatches` (src/model/Model.ts:7, 33; src/model/model.ts:16, 62).
- The facade imports its `Contributor` and `Project` from src/model/model.ts (src/controller/ContribMatchFacade.ts:3), whose classes have no `getMatchCount`, `addProject`, `addContributor`, `updateSkills` or `getSkills`. computeScore.ts imports the classes of src/model/Model.ts instead (src/model/computeScore.ts:2). Taken literally, `editContributor` (line 89) and `updateMatches` (line 117, once a project exists) would throw a TypeError on every live entity, and `createContributor` (line 43) would pass the skills in as model.ts's `email`.
- The model assumes throughout that the facade calls the Model.ts API, the one computeScore.ts imports. This includes every member described as "as written" (`Matching.CycleAsWritten`, `Matching.CycleAsWrittenFailsAfterDelete`, `Matching.CycleAsWrittenWithoutDeletes`, `Facade.ProjectLookupAsWritten`): "as written" refers to the facade's own control flow on that API.
- The facade's entities are therefore modelled as a name, a skill list and a match list (`Arena.ContributorEntry`, `Arena.ProjectEntry`). A match list holds the ids of the matched entities on the other side.

## Model

| member | source | states |
|---|---|---|
| Skills.Proficiency.Value | src/model/Skill.ts:4-9 | the numbers are 0..3; 0 is exactly NONE and 3 exactly ADVANCED |
| Skills.FromValue | src/model/Skill.ts:5-8 | every number 0..3 names the member with that number |
| Skills.ExactlyFourLevels | src/model/Skill.ts:4-9 | every level is one of four members, their numbers are distinct, and number and member convert both ways |
| Skills.AtMostIsTotalOrder | src/model/Skill.ts:5-8 | levels are totally ordered by their numbers, with NONE lowest |
| Skills.Distance | src/model/Skill.ts:5-8 | two levels differ by at most 3, by 0 exactly when equal, and by 3 exactly for NONE and ADVANCED |
| Skills.DistanceSymmetric | src/model/Skill.ts:5-8 | the gap between two levels is symmetric |
| Scoring.ScoreProficiency | src/model/computeScore.ts:4-9 | the term `9 - gap^2` lies in 0..9, is 9 exactly for equal levels and 0 exactly at gap 3 |
| Scoring.ScoreProficiencySymmetric | src/model/computeScore.ts:8 | the term is symmetric in its two levels |
| Scoring.Distinct | src/model/computeScore.ts:23-34 | a `Set` filled in insertion order is never longer than its input, and is empty only for an empty input |
| Scoring.DistinctMembers | src/model/computeScore.ts:23-34 | deduplicating in insertion order keeps exactly the elements of the input |
| Scoring.DistinctHasNoDuplicates | src/model/computeScore.ts:23-34 | the deduplicated list has no repeated element |
| Scoring.DistinctOfNoDuplicates | src/model/computeScore.ts:23-34 | a list without duplicates is left as it is |
| Scoring.DistinctIsPrefix | src/model/computeScore.ts:24-33 | the keys met first keep their places when more keys are added |
| Scoring.NoDuplicatesCardinality | src/model/computeScore.ts:34 | a list without duplicates has as many elements as its set |
| Scoring.KeyUnion | src/model/computeScore.ts:19-35 | the key union has at most as many keys as the two records together, and is empty only when both are |
| Scoring.KeyUnionProperties | src/model/computeScore.ts:19-35 | the key union has no duplicates, holds exactly the keys of either record, and starts with the first record's keys in their order |
| Scoring.Names | src/model/computeScore.ts:13-14 | the names of a skill list, position by position |
| Scoring.Assign | src/model/computeScore.ts:14 | after `record[name] = level` the name is a key with that level, and the key list grows by at most one |
| Scoring.RecordOf | src/model/computeScore.ts:11-17 | a skill record has at most one key per list entry, and no keys only for an empty list |
| Scoring.RecordOfKeys | src/model/computeScore.ts:11-17 | the record's keys are the distinct names in order of first appearance, and its key set is exactly the set of names |
| Scoring.RecordOfLastWins | src/model/computeScore.ts:13-15 | a name maps to the proficiency of its last entry in the list |
| Scoring.Level | src/model/computeScore.ts:44-45 | a name the record does not hold reads as NONE (the `Proficiency.NONE` fallback); a held name reads as its stored level |
| Scoring.TermSum | src/model/computeScore.ts:41-48 | a sum over `n` keys lies in 0..9n |
| Scoring.Score | src/model/computeScore.ts:37-49 | the score lies between 0 and 9 per skill entry on either side, and two empty lists score 0 |
| Scoring.ScoreBounds | src/model/computeScore.ts:37-49 | the score lies between 0 and 9 times the number of distinct names on either side |
| Scoring.UnionCardinality | src/model/computeScore.ts:38-40 | the key union has one entry per distinct name on either side |
| Scoring.TermSumSwap | src/model/computeScore.ts:43-46 | exchanging the two records leaves a sum over keys unchanged |
| Scoring.TermSumPermutation | src/model/computeScore.ts:42-47 | a sum over duplicate-free keys depends only on the key set, not on the order |
| Scoring.ScoreSymmetric | src/model/computeScore.ts:37-49 | swapping the contributor's and the project's skill lists gives the same score |
| Scoring.TermSumOfEqualRecords | src/model/computeScore.ts:42-47 | a record scored against itself earns 9 per key |
| Scoring.ScoreOfIdenticalLists | src/model/computeScore.ts:37-49 | identical lists score 9 per distinct name, that is 9 per entry when the names are distinct |
| Scoring.TermSumFullIff | src/model/computeScore.ts:42-47 | a sum over keys is 9 per key exactly when both records give every key the same level |
| Scoring.ScoreIsPerfectIff | src/model/computeScore.ts:37-49 | the score reaches its maximum exactly when both sides give every name the same level, a missing name counting as NONE |
| Scoring.RecordOfSingle | src/model/computeScore.ts:11-17 | a one-skill list gives a one-key record |
| Scoring.KeyUnionOfSingles | src/model/computeScore.ts:19-35 | the union of two one-key lists is one key or two, first key first |
| Scoring.ScoreOfSameSkill | src/model/computeScore.ts:37-49 | one skill against the same name scores the term of the two levels |
| Scoring.ScoreOfDifferentSkills | src/model/computeScore.ts:37-49 | one skill against a different name scores each level against NONE |
| Scoring.ScoreOfEmptyAndSingle | src/model/computeScore.ts:40-48 | two empty lists score 0; an empty list against one skill scores NONE against its level |
| Scoring.ScoreOfPerfectMatch | test/ContribMatchFacade.test.ts:14-25 | TypeScript ADVANCED against TypeScript ADVANCED scores 9 |
| Scoring.ScoreOfMissingSkill | test/ContribMatchFacade.test.ts:35-47 | no skills against TypeScript ADVANCED scores 0 |
| Scoring.ScoreOfUnrelatedSkills | test/ContribMatchFacade.test.ts:57-74 | two different names, both ADVANCED, score 0 |
| Scoring.ScoreOfCloseLevel | test/ContribMatchFacade.test.ts:63-74 | TypeScript MEDIUM against TypeScript ADVANCED scores 8 |
| Scoring.ToSkillRecord | src/model/computeScore.ts:11-17 | the loop builds the record specified by `RecordOf` |
| Scoring.ComputeKeyUnion | src/model/computeScore.ts:19-35 | the two loops over a growing set build the key union specified by `KeyUnion` |
| Scoring.ComputeScore | src/model/computeScore.ts:37-49 | the accumulating loop computes the score specified by `Score` |
| Entities.Contributor.constructor | src/model/Model.ts:7-10 | a new contributor has the given skills and no projects |
| Entities.Contributor.UpdateSkills | src/model/Model.ts:12-14 | the skills are replaced and the projects kept |
| Entities.Contributor.AddProject | src/model/Model.ts:16-18 | the project is appended to the projects; the skills are kept |
| Entities.Contributor.GetMatchCount | src/model/Model.ts:20-22 | the match count is the number of projects |
| Entities.Contributor.GetSkills | src/model/Model.ts:24-26 | the current skill list is returned |
| Entities.Project.constructor | src/model/Model.ts:33-36 | a new project has the given skills and no contributors |
| Entities.Project.UpdateSkills | src/model/Model.ts:38-40 | the skills are replaced and the contributors kept |
| Entities.Project.AddContributor | src/model/Model.ts:42-44 | the contributor is appended to the contributors; the skills are kept |
| Entities.Project.GetMatchCount | src/model/Model.ts:46-48 | the match count is the number of contributors |
| Entities.Project.GetSkills | src/model/Model.ts:50-52 | the current skill list is returned |
| Entities.Match | src/controller/ContribMatchFacade.ts:31-34 | each side gains exactly the other at the end of its match list, and they are mutually matched |
| Entities.MatchFreshPair | src/model/Model.ts:7-52 | two new entities matched once have match count 1 each; each one's only match is the other, whose only match is it in turn, and each keeps its skills |
| Identity.Contributor.constructor | src/model/model.ts:16-20 | a contributor keeps the given username, email and id (unset if none is given) |
| Identity.Contributor.GetUsername | src/model/model.ts:26-28 | the username is returned unchanged |
| Identity.Contributor.GetEmail | src/model/model.ts:34-36 | the email is returned unchanged |
| Identity.Contributor.GetId | src/model/model.ts:38-40 | the current id is returned |
| Identity.Contributor.SetFinalId | src/model/model.ts:42-47 | an unset id is set; a set id fails with FinalAccessError and stays; username and email are kept |
| Identity.Project.constructor | src/model/model.ts:62-65 | a new project has the given name and no id |
| Identity.Project.GetName | src/model/model.ts:71-73 | the name is returned unchanged |
| Identity.Project.GetId | src/model/model.ts:75-77 | the current id is returned |
| Identity.Project.SetFinalId | src/model/model.ts:79-84 | an unset id is set; a set id fails with FinalAccessError and stays; the name is kept |
| Identity.ProjectIdIsFinal | src/model/model.ts:62-84 | on a new project, the first setFinalId succeeds, the second fails, and the first id remains |
| Identity.ContributorIdIsFinal | src/model/model.ts:16-47 | a contributor created with an id cannot be given another |
| Arena.LinkEffect | src/controller/ContribMatchFacade.ts:31-34 | linking a free pair gives each side exactly the other as its one match and changes nothing else |
| Arena.Free | src/controller/ContribMatchFacade.ts:116-118 | a pair is free exactly when the contributor slot is live, the project exists, and both match counts are 0 |
| Arena.Link | src/controller/ContribMatchFacade.ts:31-34 | linking keeps the number of contributors and projects, keeps the contributor live, and adds one match to each side |
| Arena.PairScore | src/controller/ContribMatchFacade.ts:121 | the score of a pair is the scorer applied to the contributor's and the project's skill lists (see `Arena.PairScoreKeptBySameEntities`) |
| Arena.PairScoreKeptBySameEntities | src/controller/ContribMatchFacade.ts:121-136 | only the skills enter a score, so the scores computed before the commit loop stay valid while it links pairs |
| Ranking.SortsBeforeIsStrictTotalOrder | src/controller/ContribMatchFacade.ts:128-131 | the order of the stable sort on enumerated candidates is a strict total order |
| Ranking.Insert | src/controller/ContribMatchFacade.ts:128-131 | inserting a candidate into the sorted prefix adds exactly one element, and that element is present |
| Ranking.StableSort | src/controller/ContribMatchFacade.ts:128-131 | the sort keeps the number of candidates |
| Ranking.StableSortIsPermutation | src/controller/ContribMatchFacade.ts:128-131 | the sort neither loses nor invents candidates |
| Ranking.StableSortOrder | src/controller/ContribMatchFacade.ts:128-131 | on a list in enumeration order, the sort is ascending by score and keeps enumeration order among equal scores |
| Ranking.Reversed | src/controller/ContribMatchFacade.ts:132 | reversal keeps the length |
| Ranking.ReversedIsPermutation | src/controller/ContribMatchFacade.ts:132 | reversal neither loses nor invents candidates |
| Ranking.Rank | src/controller/ContribMatchFacade.ts:128-132 | sort then reverse keeps the number of candidates |
| Ranking.RankIsPermutation | src/controller/ContribMatchFacade.ts:128-132 | sort then reverse keeps exactly the candidates |
| Ranking.RankOrder | src/controller/ContribMatchFacade.ts:128-132 | ranked candidates are non-increasing by score, and equal scores come in reverse enumeration order |
| Ranking.StrictlyDescendingUnique | src/controller/ContribMatchFacade.ts:128-132 | only one arrangement of a set of candidates is strictly descending in rank order |
| Ranking.RankIs | src/controller/ContribMatchFacade.ts:128-132 | the rank is the unique strictly descending arrangement of the candidates |
| Matching.RowCandidatesMember | src/controller/ContribMatchFacade.ts:115-125 | the inner loop collects exactly the free pairs of its contributor among the projects visited, each with its score |
| Matching.RowCandidatesOrder | src/controller/ContribMatchFacade.ts:115-125 | the inner loop collects its pairs in project order |
| Matching.RowCandidates | src/controller/ContribMatchFacade.ts:115-125 | the inner loop collects at most as many pairs as projects visited, and a non-empty list whenever the contributor and the last project visited are both unmatched; exactly which pairs is `Matching.RowCandidatesMember` |
| Matching.CandidatesUpToMember | src/controller/ContribMatchFacade.ts:114-127 | after `m` outer iterations, the list holds exactly the free pairs of the first `m` contributors |
| Matching.CandidatesUpToOrder | src/controller/ContribMatchFacade.ts:114-127 | the collected pairs are in enumeration order, contributors first |
| Matching.CandidatesUpTo | src/controller/ContribMatchFacade.ts:114-127 | after `m` outer iterations at most `m` times the number of projects pairs are collected |
| Matching.CandidatesMembers | src/controller/ContribMatchFacade.ts:113-127 | possibleMatches holds exactly the free pairs with their scores, in enumeration order |
| Matching.Candidates | src/controller/ContribMatchFacade.ts:113-127 | possibleMatches holds at most as many pairs as the number of contributor slots times the number of projects; exactly which pairs is `Matching.CandidatesMembers` |
| Matching.NoFreePairNoCandidates | src/controller/ContribMatchFacade.ts:116-119 | a store without a free pair yields no candidates |
| Matching.CommitStep | src/controller/ContribMatchFacade.ts:134-136 | one step of the commit loop keeps the number of entities, leaves a taken pair alone, and leaves a free pair no longer free |
| Matching.CommitAll | src/controller/ContribMatchFacade.ts:133-137 | the commit loop keeps the number of contributors and projects |
| Matching.Cycle | src/controller/ContribMatchFacade.ts:107-138 | a matching cycle keeps the number of contributors and projects; its matching properties are the lemmas below |
| Matching.CommitAllLinksOnce | src/controller/ContribMatchFacade.ts:133-137 | committing any list keeps the entities, gives each participant at most one new match, and makes every new match mutual |
| Matching.CommitAllVisits | src/controller/ContribMatchFacade.ts:133-137 | after the walk no visited pair is still free |
| Matching.CycleLinksOnce | src/controller/ContribMatchFacade.ts:107-138 | a cycle gives an already matched participant nothing, gives any other at most one match, and makes each new link bidirectional |
| Matching.CycleKeepsCountsAtMostOne | src/controller/ContribMatchFacade.ts:116-137 | match counts that were at most 1 before a cycle are at most 1 after it |
| Matching.CycleKeepsTaken | src/controller/ContribMatchFacade.ts:116-118 | a pair that was not free before a cycle is not free after it |
| Matching.CycleIsMaximal | src/controller/ContribMatchFacade.ts:113-137 | after a cycle no pair of unmatched contributor and project remains |
| Matching.CycleIsIdempotent | src/controller/ContribMatchFacade.ts:107-138 | a second cycle without new entities changes nothing |
| Matching.CommitAllServes | src/controller/ContribMatchFacade.ts:133-137 | walking non-increasing candidates leaves every visited pair served: one of its sides is matched to a partner scoring at least as well |
| Matching.CycleIsGreedy | src/controller/ContribMatchFacade.ts:107-138 | every pair that was free loses out only to a match, on one of its sides, that scores at least as much |
| Matching.RankedCandidates | src/controller/ContribMatchFacade.ts:113-132 | the ranked list holds exactly the free pairs with their scores and is non-increasing by score |
| Matching.FirstDeleted | src/controller/ContribMatchFacade.ts:114 | the first deleted contributor slot, or the number of slots if none is deleted |
| Matching.CycleAsWritten | src/controller/ContribMatchFacade.ts:107-138 | as written, the cycle either yields the corrected cycle or fails with a null dereference on a deleted contributor slot, and only when a project exists |
| Matching.CycleAsWrittenFailsAfterDelete | src/controller/ContribMatchFacade.ts:114-118 | as written, a deleted slot makes the cycle fail with a null dereference once any project exists |
| Matching.CycleAsWrittenWithoutDeletes | src/controller/ContribMatchFacade.ts:107-138 | without deleted slots, the code as written and the corrected cycle agree |
| Facade.ContribMatchFacade.constructor | src/controller/ContribMatchFacade.ts:21-24 | a new facade has no contributors and no projects |
| Facade.ContribMatchFacade.Match | src/controller/ContribMatchFacade.ts:31-34 | the contributor's and the project's match lists each gain the other |
| Facade.ContribMatchFacade.CreateContributor | src/controller/ContribMatchFacade.ts:42-44 | the new id is the old number of slots; one unmatched contributor is appended; everything else is kept |
| Facade.ContribMatchFacade.CreateProject | src/controller/ContribMatchFacade.ts:52-54 | the new id is the old number of projects; one unmatched project is appended; everything else is kept |
| Facade.ContribMatchFacade.GetContributor | src/controller/ContribMatchFacade.ts:61-66 | NotFound exactly outside the slots; otherwise the slot, empty if deleted |
| Facade.ContribMatchFacade.GetProject | src/controller/ContribMatchFacade.ts:73-78 | NotFound exactly outside the projects; otherwise the project (corrected bound, see Findings) |
| Facade.ContribMatchFacade.EditContributor | src/controller/ContribMatchFacade.ts:85-90 | NotFound outside the slots and a null dereference on a deleted slot, both changing nothing; otherwise only that contributor's skills are replaced |
| Facade.ContribMatchFacade.EditProject | src/controller/ContribMatchFacade.ts:97-102 | NotFound outside the projects, changing nothing; otherwise only that project's skills are replaced |
| Facade.ContribMatchFacade.DeleteContributor | src/controller/ContribMatchFacade.ts:144-149 | NotFound outside the slots, changing nothing; otherwise only that slot is emptied, the length and the projects' match lists stay |
| Facade.ContribMatchFacade.GetContributorMatches | src/controller/ContribMatchFacade.ts:156-161 | NotFound exactly outside the slots, a null dereference exactly on a deleted slot, otherwise the contributor's match list |
| Facade.ContribMatchFacade.GetProjectMatches | src/controller/ContribMatchFacade.ts:168-173 | NotFound exactly outside the projects, otherwise the project's match list |
| Facade.ContribMatchFacade.CollectCandidates | src/controller/ContribMatchFacade.ts:113-127 | the nested loops collect exactly the free pairs with their computeScore, in enumeration order |
| Facade.ContribMatchFacade.Commit | src/controller/ContribMatchFacade.ts:133-137 | the loop links each visited pair that is still free, as `CommitAll` specifies |
| Facade.ContribMatchFacade.UpdateMatches | src/controller/ContribMatchFacade.ts:107-138 | the new state is one cycle of the old state with computeScore, so every Matching lemma about `Cycle` holds of it |
| Facade.ProjectLookupAsWritten | src/controller/ContribMatchFacade.ts:73-78 | as written, the lookup passes exactly the ids below the number of contributors, fails otherwise with NotFound, and any project it returns is the one at that id |
| Facade.ProjectLookupAsWrittenRejectsExistingProject | src/controller/ContribMatchFacade.ts:73-78 | as written, with no contributors, project 0 is reported missing although it exists |
| Facade.ProjectLookupAsWrittenReturnsUndefined | src/controller/ContribMatchFacade.ts:73-78 | as written, with one contributor and no projects, project 0 comes back `undefined` |
| Facade.ProjectLookupAsWrittenAgrees | src/controller/ContribMatchFacade.ts:73-78 | as written, the lookup is correct whenever there are as many contributors as projects |
| Scenarios.CycleOfOnePair | src/controller/ContribMatchFacade.ts:107-138 | one free contributor and one free project are always linked |
| Scenarios.RankOfOne | src/controller/ContribMatchFacade.ts:128-132 | one candidate ranks as itself |
| Scenarios.CandidatesOfTwoByOne | src/controller/ContribMatchFacade.ts:114-127 | two free contributors and one free project give two candidates, contributor 0 first |
| Scenarios.RankOfTwo | src/controller/ContribMatchFacade.ts:128-132 | of two candidates, the higher score ranks first and a tie goes to the later one |
| Scenarios.CycleOfTwoContributorsOneProject | src/controller/ContribMatchFacade.ts:107-138 | the higher-scoring contributor wins the one project, and a tie goes to the contributor created later |
| Scenarios.CandidatesOfTwoByTwo | src/controller/ContribMatchFacade.ts:114-127 | two free contributors and two free projects give four candidates in enumeration order |
| Scenarios.RankOfCrossed | src/controller/ContribMatchFacade.ts:128-132 | in the crossed case, the two better pairs rank first, each score in reverse enumeration order |
| Scenarios.CommitOfCrossed | src/controller/ContribMatchFacade.ts:133-137 | walking the crossed ranking links the two better pairs and nothing else |
| Scenarios.CycleOfCrossedPairs | test/ContribMatchFacade.test.ts:83-121 | the ranked order is contributor 2 with project 1 before contributor 1 with project 2, and both of those pairs are linked |
| Scenarios.SinglePerfectMatch | test/ContribMatchFacade.test.ts:13-33 | the one contributor and the one project are matched to each other by id and by name |
| Scenarios.CompetingContributors | src/controller/ContribMatchFacade.ts:107-138 | with a score at least as high, the second contributor gets the project and the first stays unmatched |
| Scenarios.PerfectOverImperfect | test/ContribMatchFacade.test.ts:34-55 | the perfect match wins: contributor2 gets project1 |
| Scenarios.PairBySkill | test/ContribMatchFacade.test.ts:56-82 | the close-level contributor wins: contributor2 gets project1 |
| Scenarios.CrossedPerfectMatches | test/ContribMatchFacade.test.ts:83-121 | contributor1 gets project2 and contributor2 gets project1, in both directions |
| Scenarios.MatchAfterDelete | src/controller/ContribMatchFacade.ts:107-149 | after a delete, the cycle as written fails on the deleted slot; the corrected cycle matches the remaining contributor |
| Scenarios.CycleWithDeletedFirst | src/controller/ContribMatchFacade.ts:114-118 | the corrected cycle skips a deleted slot and links the live contributor |
| Scenarios.ProjectLookupScenario | src/controller/ContribMatchFacade.ts:73-78 | with one project and no contributors, the lookup as written fails and the corrected lookup finds the project |

## Left out

- src/database/Repository.ts, src/database/fetch.ts, src/entrypoints/server.ts and server.js are not part of this model. They are database access, network access and HTTP routing.
- The NotFoundError class (src/error/NotFoundError.ts and its copy at src/controller/ContribMatchFacade.ts:9) becomes the `NotFound` variant of `Arena.Error`. The message text is not modelled.
- The second, unchecked `getContributor` (src/controller/ContribMatchFacade.ts:180-182) is a duplicate member and is not modelled. Only the bounds-checked one at lines 61-66 is.
- Ids and scores are unbounded integers. Fractional, NaN or very large JavaScript numbers used as ids are not modelled.
- Scoring.Score: skill names are treated as ordinary keys. In JavaScript a plain-object record behaves differently for names inherited from `Object.prototype`. When a name such as `toString`, `constructor` or `valueOf` is missing on one side, the lookup at src/model/computeScore.ts:44-45 finds the inherited function instead of falling back to NONE. The term and the score then become NaN, and the sort comparator at src/controller/ContribMatchFacade.ts:130 returns NaN, so the order is up to the engine. A skill named `__proto__` is never stored as a key by the assignment at src/model/computeScore.ts:14. The model gives every name an own entry, so for example a lone `toString` ADVANCED skill against no skills scores 0.
- Skill names are opaque strings, and record keys keep insertion order. The reordering of integer-like keys by `Object.keys` is not modelled.
- Arrays are sequence values, so aliasing is not modelled. For example, `getSkills` hands out the stored array itself, and a later change through that reference would reach the entity.
- Facade.ContribMatchFacade.UpdateMatches: the library sort and `reverse` work in place on `possibleMatches`. The model assigns the results of the functions `Ranking.StableSort` and `Ranking.Reversed` to the local instead.
- Facade.ContribMatchFacade.DeleteContributor: after a delete, a project's match list still holds the deleted contributor's id, but the model keeps none of that contributor's data: the slot is `None`. In the source only the array slot is nulled (src/controller/ContribMatchFacade.ts:148), and the contributor object stays in its projects' lists (src/model/Model.ts:43). So `getProjectMatches` (line 172) still hands it out, with its name, skills and matches, and its `getUsername()` still answers (as test/ContribMatchFacade.test.ts:32 calls it on a project's match). The model can report only the id.
- The facade's entities hold match lists of ids rather than object references. The reference-holding classes of Model.ts are modelled separately in `entities.dfy`.
- Emails and usernames are passed through unchanged; nothing else is modelled about them.
- A TypeError from dereferencing a deleted (`null`) slot is modelled as the `NullDereference` error of the operation. This applies to editContributor (line 89) and getContributorMatches (line 160), and it changes nothing.
- Facade.ContribMatchFacade.UpdateMatches: the corrected cycle skips deleted slots instead of throwing (see Findings). The code as written is `Matching.CycleAsWritten`.

## Findings

| source | as written | input that shows it | evidently intended | confidence | as-written member | corrected member |
|---|---|---|---|---|---|---|
| src/controller/ContribMatchFacade.ts:74 | `getProject` checks the id against the number of contributors | no contributors and one project: `getProject(0)` throws NotFoundError; one contributor and no projects: `getProject(0)` returns `undefined` | check against the number of projects | not executed | Facade.ProjectLookupAsWrittenRejectsExistingProject | Facade.ContribMatchFacade.GetProject |
| src/controller/ContribMatchFacade.ts:114-117 | `updateMatches` calls `getMatchCount` on every contributor slot, including slots emptied by `deleteContributor` | two contributors, delete contributor 0, one project: `updateMatches` throws a TypeError and matches nobody | skip deleted contributors, so contributor 1 gets the project | not executed | Matching.CycleAsWrittenFailsAfterDelete | Facade.ContribMatchFacade.UpdateMatches |
