/**
 * The compatibility score of src/model/computeScore.ts.
 *
 * Each loop of the source is a method here, proved equal to a function that
 * folds the same step over a growing prefix of its input; the properties the
 * matcher relies on (bounds, symmetry, the values of worked examples) are
 * proved about those functions.
 */
module Scoring {
  import opened Skills

  /** The per-skill term `9 - |c - p|^2` (scoreProfficiency). */
  function ScoreProficiency(contributorLevel: Proficiency, projectLevel: Proficiency): (term: int)
    ensures 0 <= term <= 9
    ensures term == 9 <==> contributorLevel == projectLevel
    ensures term == 0 <==> Distance(contributorLevel, projectLevel) == 3
  {
    var gap := Distance(contributorLevel, projectLevel);
    assert gap == 0 || gap == 1 || gap == 2 || gap == 3;
    9 - gap * gap
  }

  lemma ScoreProficiencySymmetric(a: Proficiency, b: Proficiency)
    ensures ScoreProficiency(a, b) == ScoreProficiency(b, a)
  {
    DistanceSymmetric(a, b);
  }

  // ---------------------------------------------------------------------------
  // Insertion-ordered sets of names (a JavaScript Set, or the keys of an object)
  // ---------------------------------------------------------------------------

  predicate NoDuplicates(xs: seq<string>)
  {
    forall a, b :: 0 <= a < b < |xs| ==> xs[a] != xs[b]
  }

  /**
   * The strings of `xs`, each once, in the order of their first occurrence:
   * what a JavaScript `Set` holds after `xs` is added to it element by element.
   */
  function Distinct(xs: seq<string>): (d: seq<string>)
    ensures |d| <= |xs|
    ensures d == [] <==> xs == []
  {
    if xs == [] then []
    else
      var d := Distinct(xs[..|xs| - 1]);
      if xs[|xs| - 1] in d then d else d + [xs[|xs| - 1]]
  }

  /** Adding one more element to a Set: appended when new, ignored otherwise. */
  lemma DistinctSnoc(xs: seq<string>, x: string)
    ensures Distinct(xs + [x]) == if x in Distinct(xs) then Distinct(xs) else Distinct(xs) + [x]
  {
    assert (xs + [x])[..|xs|] == xs;
  }

  /** The Set after the first `i + 1` elements, from the Set after the first `i`. */
  lemma DistinctStep(xs: seq<string>, i: nat, seen: seq<string>)
    requires i < |xs| && seen == Distinct(xs[..i])
    ensures Distinct(xs[..i + 1]) == if xs[i] in seen then seen else seen + [xs[i]]
  {
    assert xs[..i + 1][..i] == xs[..i];
  }

  /** The Set holding `a` is where adding `b` starts. */
  lemma DistinctAppendStart(a: seq<string>, b: seq<string>)
    ensures Distinct(a[..|a|]) == Distinct(a + b[..0])
  {
    assert a[..|a|] == a + b[..0];
  }

  /** The Set after `a` and the first `i + 1` elements of `b`, from the Set after `a` and the first `i`. */
  lemma DistinctAppendStep(a: seq<string>, b: seq<string>, i: nat, seen: seq<string>)
    requires i < |b| && seen == Distinct(a + b[..i])
    ensures Distinct(a + b[..i + 1]) == if b[i] in seen then seen else seen + [b[i]]
  {
    assert a + b[..i + 1] == (a + b[..i]) + [b[i]];
    DistinctSnoc(a + b[..i], b[i]);
  }

  /** A Set holds exactly the elements added to it. */
  lemma {:induction false} DistinctMembers(xs: seq<string>)
    ensures forall x :: x in Distinct(xs) <==> x in xs
  {
    if xs != [] {
      DistinctMembers(xs[..|xs| - 1]);
      assert xs == xs[..|xs| - 1] + [xs[|xs| - 1]];
    }
  }

  /** A Set holds each element once. */
  lemma {:induction false} DistinctHasNoDuplicates(xs: seq<string>)
    ensures NoDuplicates(Distinct(xs))
  {
    if xs != [] {
      DistinctHasNoDuplicates(xs[..|xs| - 1]);
    }
  }

  /** Elements added without repetition keep their order. */
  lemma {:induction false} DistinctOfNoDuplicates(xs: seq<string>)
    ensures NoDuplicates(xs) ==> Distinct(xs) == xs
  {
    if xs != [] && NoDuplicates(xs) {
      var init := xs[..|xs| - 1];
      assert NoDuplicates(init);
      DistinctOfNoDuplicates(init);
      assert xs[|xs| - 1] !in init;
      assert xs == init + [xs[|xs| - 1]];
    }
  }

  /** Adding more elements to a Set never moves the ones already there. */
  lemma {:induction false} DistinctIsPrefix(a: seq<string>, b: seq<string>)
    ensures |Distinct(a)| <= |Distinct(a + b)|
    ensures Distinct(a + b)[..|Distinct(a)|] == Distinct(a)
  {
    if b == [] {
      assert a + b == a;
    } else {
      var b' := b[..|b| - 1];
      assert (a + b)[..|a + b| - 1] == a + b';
      DistinctIsPrefix(a, b');
    }
  }

  /** A sequence without duplicates has as many elements as the set of its elements. */
  lemma {:induction false} NoDuplicatesCardinality(xs: seq<string>)
    requires NoDuplicates(xs)
    ensures |set x | x in xs| == |xs|
  {
    if xs != [] {
      var init := xs[..|xs| - 1];
      var last := xs[|xs| - 1];
      assert NoDuplicates(init);
      NoDuplicatesCardinality(init);
      assert last !in init;
      assert (set x | x in xs) == (set x | x in init) + {last};
    }
  }

  /** computeKeyUnion: both key lists added, in turn, to one Set. */
  function KeyUnion(keys1: seq<string>, keys2: seq<string>): (union: seq<string>)
    ensures |union| <= |keys1| + |keys2|
    ensures union == [] <==> keys1 == [] && keys2 == []
  {
    Distinct(keys1 + keys2)
  }

  /**
   * The key union holds every key of either record exactly once, and the keys
   * of the first record come first, in their own order.
   */
  lemma KeyUnionProperties(keys1: seq<string>, keys2: seq<string>)
    ensures NoDuplicates(KeyUnion(keys1, keys2))
    ensures forall k :: k in KeyUnion(keys1, keys2) <==> k in keys1 || k in keys2
    ensures NoDuplicates(keys1) ==>
              |keys1| <= |KeyUnion(keys1, keys2)| && KeyUnion(keys1, keys2)[..|keys1|] == keys1
  {
    DistinctHasNoDuplicates(keys1 + keys2);
    DistinctMembers(keys1 + keys2);
    DistinctOfNoDuplicates(keys1);
    DistinctIsPrefix(keys1, keys2);
  }

  // ---------------------------------------------------------------------------
  // Skill records (toSkillRecord)
  // ---------------------------------------------------------------------------

  /**
   * A `Record<string, Proficiency>` object: its keys in the order
   * `Object.keys` lists them, and the level stored under each.
   */
  datatype SkillRecord = SkillRecord(keys: seq<string>, levels: map<string, Proficiency>)

  /** `record[name] = level`: a new key goes to the end, an existing one keeps its place. */
  function Assign(record: SkillRecord, name: string, level: Proficiency): (r: SkillRecord)
    ensures name in r.keys && name in r.levels && r.levels[name] == level
    ensures |record.keys| <= |r.keys| <= |record.keys| + 1
  {
    SkillRecord(if name in record.keys then record.keys else record.keys + [name],
                record.levels[name := level])
  }

  /** The names of a skill list, in list order. */
  function Names(skills: seq<Skill>): (names: seq<string>)
    ensures |names| == |skills|
    ensures forall i :: 0 <= i < |skills| ==> names[i] == skills[i].name
  {
    if skills == [] then [] else Names(skills[..|skills| - 1]) + [skills[|skills| - 1].name]
  }

  /** The set of names a skill list mentions. */
  function SkillNames(skills: seq<Skill>): set<string>
  {
    set name | name in Names(skills)
  }

  /** The record toSkillRecord builds from a skill list. */
  function RecordOf(skills: seq<Skill>): (record: SkillRecord)
    ensures |record.keys| <= |skills|
    ensures record.keys == [] <==> skills == []
  {
    if skills == [] then SkillRecord([], map[])
    else
      var last := skills[|skills| - 1];
      Assign(RecordOf(skills[..|skills| - 1]), last.name, last.proficiency)
  }

  /**
   * The record's keys are the list's names, each once, in order of first
   * appearance, and a name has a level exactly when the list mentions it.
   */
  lemma {:induction false} RecordOfKeys(skills: seq<Skill>)
    ensures RecordOf(skills).keys == Distinct(Names(skills))
    ensures forall k :: k in RecordOf(skills).levels <==> k in SkillNames(skills)
  {
    if skills != [] {
      var init := skills[..|skills| - 1];
      var last := skills[|skills| - 1];
      RecordOfKeys(init);
      assert Names(skills) == Names(init) + [last.name];
      DistinctSnoc(Names(init), last.name);
      assert SkillNames(skills) == SkillNames(init) + {last.name};
    }
  }

  /** A later entry overwrites an earlier one: each key holds the level of the last entry with that name. */
  lemma {:induction false} RecordOfLastWins(skills: seq<Skill>, i: nat)
    requires i < |skills|
    requires forall j :: i < j < |skills| ==> skills[j].name != skills[i].name
    ensures skills[i].name in RecordOf(skills).levels
    ensures RecordOf(skills).levels[skills[i].name] == skills[i].proficiency
  {
    if i < |skills| - 1 {
      RecordOfLastWins(skills[..|skills| - 1], i);
    }
  }

  /** The level a record gives a name, NONE when the record lacks it (`record[name] || NONE`). */
  function Level(record: SkillRecord, name: string): (level: Proficiency)
    ensures name !in record.levels ==> level == NONE
    ensures name in record.levels ==> level == record.levels[name]
  {
    if name in record.levels then record.levels[name] else NONE
  }

  // ---------------------------------------------------------------------------
  // The score
  // ---------------------------------------------------------------------------

  /** The sum of the per-skill terms over `keys`, taken in order. */
  function TermSum(keys: seq<string>, contributor: SkillRecord, project: SkillRecord): (total: int)
    ensures 0 <= total <= 9 * |keys|
  {
    if keys == [] then 0
    else
      var name := keys[|keys| - 1];
      TermSum(keys[..|keys| - 1], contributor, project)
        + ScoreProficiency(Level(contributor, name), Level(project, name))
  }

  /** computeScore on the two skill lists. */
  function Score(contributorSkills: seq<Skill>, projectSkills: seq<Skill>): (score: int)
    ensures 0 <= score <= 9 * (|contributorSkills| + |projectSkills|)
    ensures contributorSkills == [] && projectSkills == [] ==> score == 0
  {
    var rc := RecordOf(contributorSkills);
    var rp := RecordOf(projectSkills);
    TermSum(KeyUnion(rc.keys, rp.keys), rc, rp)
  }

  /** Every skill named on either side adds between 0 and 9. */
  lemma ScoreBounds(contributorSkills: seq<Skill>, projectSkills: seq<Skill>)
    ensures 0 <= Score(contributorSkills, projectSkills)
    ensures Score(contributorSkills, projectSkills) <= 9 * |SkillNames(contributorSkills) + SkillNames(projectSkills)|
  {
    UnionCardinality(contributorSkills, projectSkills);
  }

  /** The key union has one entry per skill name found on either side. */
  lemma UnionCardinality(contributorSkills: seq<Skill>, projectSkills: seq<Skill>)
    ensures |KeyUnion(RecordOf(contributorSkills).keys, RecordOf(projectSkills).keys)|
            == |SkillNames(contributorSkills) + SkillNames(projectSkills)|
  {
    var rc := RecordOf(contributorSkills);
    var rp := RecordOf(projectSkills);
    var union := KeyUnion(rc.keys, rp.keys);
    KeyUnionProperties(rc.keys, rp.keys);
    RecordOfKeys(contributorSkills);
    RecordOfKeys(projectSkills);
    DistinctMembers(Names(contributorSkills));
    DistinctMembers(Names(projectSkills));
    NoDuplicatesCardinality(union);
    assert (set x | x in union) == SkillNames(contributorSkills) + SkillNames(projectSkills);
  }

  // ---------------------------------------------------------------------------
  // Properties of the score
  // ---------------------------------------------------------------------------

  lemma {:induction false} TermSumAppend(xs: seq<string>, ys: seq<string>, a: SkillRecord, b: SkillRecord)
    ensures TermSum(xs + ys, a, b) == TermSum(xs, a, b) + TermSum(ys, a, b)
  {
    if ys == [] {
      assert xs + ys == xs;
    } else {
      var ys' := ys[..|ys| - 1];
      assert (xs + ys)[..|xs + ys| - 1] == xs + ys';
      TermSumAppend(xs, ys', a, b);
    }
  }

  lemma {:induction false} TermSumSwap(keys: seq<string>, a: SkillRecord, b: SkillRecord)
    ensures TermSum(keys, a, b) == TermSum(keys, b, a)
  {
    if keys != [] {
      TermSumSwap(keys[..|keys| - 1], a, b);
      ScoreProficiencySymmetric(Level(a, keys[|keys| - 1]), Level(b, keys[|keys| - 1]));
    }
  }

  /** Taking one name out of a duplicate-free sequence leaves the others, each once. */
  lemma RemoveAtElements(ys: seq<string>, j: nat)
    requires NoDuplicates(ys) && j < |ys|
    ensures NoDuplicates(ys[..j] + ys[j + 1..])
    ensures forall k :: k in ys[..j] + ys[j + 1..] <==> k in ys && k != ys[j]
  {
    var ys' := ys[..j] + ys[j + 1..];
    assert forall m :: 0 <= m < |ys'| ==> ys'[m] == ys[if m < j then m else m + 1];
    forall k | k in ys
      ensures k in ys' || k == ys[j]
    {
      var m :| 0 <= m < |ys| && ys[m] == k;
      if m != j {
        assert ys'[if m < j then m else m - 1] == k;
      }
    }
  }

  /** Taking one name out of the sequence takes its term out of the sum. */
  lemma RemoveAtSum(ys: seq<string>, j: nat, a: SkillRecord, b: SkillRecord)
    requires j < |ys|
    ensures TermSum(ys, a, b)
            == TermSum(ys[..j] + ys[j + 1..], a, b) + ScoreProficiency(Level(a, ys[j]), Level(b, ys[j]))
  {
    var x := ys[j];
    assert ys == ys[..j] + [x] + ys[j + 1..];
    TermSumAppend(ys[..j] + [x], ys[j + 1..], a, b);
    TermSumAppend(ys[..j], [x], a, b);
    TermSumAppend(ys[..j], ys[j + 1..], a, b);
    assert TermSum([x], a, b) == ScoreProficiency(Level(a, x), Level(b, x)) by {
      assert [x][..0] == [];
    }
  }

  /** The order in which the names are visited does not change the sum. */
  lemma {:induction false} TermSumPermutation(xs: seq<string>, ys: seq<string>, a: SkillRecord, b: SkillRecord)
    requires NoDuplicates(xs) && NoDuplicates(ys)
    requires forall k :: k in xs <==> k in ys
    ensures TermSum(xs, a, b) == TermSum(ys, a, b)
    decreases |xs|
  {
    if xs == [] {
      NoDuplicatesCardinality(ys);
      assert (set k | k in ys) == {};
    } else {
      var x := xs[|xs| - 1];
      var xs' := xs[..|xs| - 1];
      assert xs == xs' + [x];
      assert x in ys;
      var j :| 0 <= j < |ys| && ys[j] == x;
      RemoveAtElements(ys, j);
      RemoveAtSum(ys, j, a, b);
      var ys' := ys[..j] + ys[j + 1..];
      assert NoDuplicates(xs');
      assert x !in xs';
      assert forall k :: k in xs <==> k in xs' || k == x;
      TermSumPermutation(xs', ys', a, b);
    }
  }

  /** Swapping the contributor's and the project's skill lists gives the same total. */
  lemma ScoreSymmetric(skills1: seq<Skill>, skills2: seq<Skill>)
    ensures Score(skills1, skills2) == Score(skills2, skills1)
  {
    var r1 := RecordOf(skills1);
    var r2 := RecordOf(skills2);
    var u12 := KeyUnion(r1.keys, r2.keys);
    var u21 := KeyUnion(r2.keys, r1.keys);
    KeyUnionProperties(r1.keys, r2.keys);
    KeyUnionProperties(r2.keys, r1.keys);
    TermSumSwap(u21, r2, r1);
    TermSumPermutation(u12, u21, r1, r2);
  }

  lemma {:induction false} TermSumOfEqualRecords(keys: seq<string>, r: SkillRecord)
    ensures TermSum(keys, r, r) == 9 * |keys|
  {
    if keys != [] {
      TermSumOfEqualRecords(keys[..|keys| - 1], r);
    }
  }

  /** A skill list scored against itself earns 9 for every distinct name in it. */
  lemma ScoreOfIdenticalLists(skills: seq<Skill>)
    ensures Score(skills, skills) == 9 * |SkillNames(skills)|
    ensures NoDuplicates(Names(skills)) ==> Score(skills, skills) == 9 * |skills|
  {
    var r := RecordOf(skills);
    var union := KeyUnion(r.keys, r.keys);
    TermSumOfEqualRecords(union, r);
    UnionCardinality(skills, skills);
    assert SkillNames(skills) + SkillNames(skills) == SkillNames(skills);
    if NoDuplicates(Names(skills)) {
      NoDuplicatesCardinality(Names(skills));
    }
  }

  lemma {:induction false} TermSumFullIff(keys: seq<string>, a: SkillRecord, b: SkillRecord)
    ensures TermSum(keys, a, b) == 9 * |keys| <==> forall k :: k in keys ==> Level(a, k) == Level(b, k)
  {
    if keys != [] {
      var init := keys[..|keys| - 1];
      var last := keys[|keys| - 1];
      TermSumFullIff(init, a, b);
      assert keys == init + [last];
      assert forall k :: k in keys <==> k in init || k == last;
    }
  }

  /**
   * The score reaches its ceiling of 9 per named skill exactly when both sides
   * give every named skill the same level (a missing skill counting as NONE).
   */
  lemma ScoreIsPerfectIff(contributorSkills: seq<Skill>, projectSkills: seq<Skill>)
    ensures Score(contributorSkills, projectSkills) == 9 * |SkillNames(contributorSkills) + SkillNames(projectSkills)|
            <==> forall k :: k in SkillNames(contributorSkills) + SkillNames(projectSkills) ==>
                   Level(RecordOf(contributorSkills), k) == Level(RecordOf(projectSkills), k)
  {
    var rc := RecordOf(contributorSkills);
    var rp := RecordOf(projectSkills);
    var union := KeyUnion(rc.keys, rp.keys);
    UnionCardinality(contributorSkills, projectSkills);
    KeyUnionProperties(rc.keys, rp.keys);
    RecordOfKeys(contributorSkills);
    RecordOfKeys(projectSkills);
    DistinctMembers(Names(contributorSkills));
    DistinctMembers(Names(projectSkills));
    TermSumFullIff(union, rc, rp);
    assert forall k :: k in union <==> k in SkillNames(contributorSkills) + SkillNames(projectSkills);
  }

  lemma RecordOfSingle(a: Skill)
    ensures RecordOf([a]) == SkillRecord([a.name], map[a.name := a.proficiency])
  {
    assert [a][..0] == [];
  }

  /** The key union of two one-name key lists. */
  lemma KeyUnionOfSingles(x: string, y: string)
    ensures KeyUnion([x], [y]) == if x == y then [x] else [x, y]
  {
    assert [x] + [y] == [x, y];
    assert [x, y][..1] == [x];
    assert Distinct([x]) == [x] by { assert [x][..0] == []; }
  }

  /** Two one-skill lists naming the same skill: one term. */
  lemma ScoreOfSameSkill(a: Skill, b: Skill)
    requires a.name == b.name
    ensures Score([a], [b]) == ScoreProficiency(a.proficiency, b.proficiency)
  {
    RecordOfSingle(a);
    RecordOfSingle(b);
    KeyUnionOfSingles(a.name, b.name);
    assert [a.name][..0] == [];
  }

  /** Two one-skill lists naming different skills: each level is compared with NONE. */
  lemma ScoreOfDifferentSkills(a: Skill, b: Skill)
    requires a.name != b.name
    ensures Score([a], [b]) == ScoreProficiency(a.proficiency, NONE) + ScoreProficiency(NONE, b.proficiency)
  {
    RecordOfSingle(a);
    RecordOfSingle(b);
    KeyUnionOfSingles(a.name, b.name);
    var ra := RecordOf([a]);
    var rb := RecordOf([b]);
    var union := [a.name, b.name];
    assert Score([a], [b]) == TermSum(union, ra, rb);
    assert Level(ra, a.name) == a.proficiency && Level(rb, a.name) == NONE;
    assert Level(ra, b.name) == NONE && Level(rb, b.name) == b.proficiency;
    assert TermSum([a.name], ra, rb) == ScoreProficiency(a.proficiency, NONE) by {
      assert [a.name][..0] == [];
    }
    assert TermSum(union, ra, rb) == TermSum([a.name], ra, rb) + ScoreProficiency(NONE, b.proficiency) by {
      assert union[..1] == [a.name];
    }
  }

  /** An empty list against a one-skill list: that skill is compared with NONE. */
  lemma ScoreOfEmptyAndSingle(b: Skill)
    ensures Score([], []) == 0
    ensures Score([], [b]) == ScoreProficiency(NONE, b.proficiency)
  {
    RecordOfSingle(b);
    assert [] + [b.name] == [b.name];
    assert Distinct([b.name]) == [b.name] by { assert [b.name][..0] == []; }
    assert [b.name][..0] == [];
  }

  // The scores behind the expected outcomes of the facade's tests.

  lemma ScoreOfPerfectMatch()
    ensures Score([Skill("TypeScript", ADVANCED)], [Skill("TypeScript", ADVANCED)]) == 9
  {
    ScoreOfSameSkill(Skill("TypeScript", ADVANCED), Skill("TypeScript", ADVANCED));
  }

  lemma ScoreOfMissingSkill()
    ensures Score([], [Skill("TypeScript", ADVANCED)]) == 0
  {
    ScoreOfEmptyAndSingle(Skill("TypeScript", ADVANCED));
  }

  lemma ScoreOfUnrelatedSkills(x: string, y: string)
    requires x != y
    ensures Score([Skill(x, ADVANCED)], [Skill(y, ADVANCED)]) == 0
  {
    ScoreOfDifferentSkills(Skill(x, ADVANCED), Skill(y, ADVANCED));
  }

  lemma ScoreOfCloseLevel()
    ensures Score([Skill("TypeScript", MEDIUM)], [Skill("TypeScript", ADVANCED)]) == 8
  {
    assert Distance(MEDIUM, ADVANCED) == 1;
    ScoreOfSameSkill(Skill("TypeScript", MEDIUM), Skill("TypeScript", ADVANCED));
  }

  // ---------------------------------------------------------------------------
  // The loops of the source
  // ---------------------------------------------------------------------------

  /** toSkillRecord: one assignment per skill, in list order. */
  method ToSkillRecord(skills: seq<Skill>) returns (record: SkillRecord)
    ensures record == RecordOf(skills)
  {
    record := SkillRecord([], map[]);
    for i := 0 to |skills|
      invariant record == RecordOf(skills[..i])
    {
      assert skills[..i + 1][..i] == skills[..i];
      record := Assign(record, skills[i].name, skills[i].proficiency);
    }
    assert skills[..|skills|] == skills;
  }

  /** computeKeyUnion: add the keys of each record to a Set unless it already holds them. */
  method ComputeKeyUnion(record1: SkillRecord, record2: SkillRecord) returns (union: seq<string>)
    ensures union == KeyUnion(record1.keys, record2.keys)
  {
    var keys1, keys2 := record1.keys, record2.keys;
    union := [];
    for i := 0 to |keys1|
      invariant union == Distinct(keys1[..i])
    {
      DistinctStep(keys1, i, union);
      if keys1[i] !in union {
        union := union + [keys1[i]];
      }
    }
    DistinctAppendStart(keys1, keys2);
    for i := 0 to |keys2|
      invariant union == Distinct(keys1 + keys2[..i])
    {
      DistinctAppendStep(keys1, keys2, i, union);
      if keys2[i] !in union {
        union := union + [keys2[i]];
      }
    }
    assert keys2[..|keys2|] == keys2;
  }

  /** computeScore: accumulate the per-skill term over the key union. */
  method ComputeScore(contributorSkills: seq<Skill>, projectSkills: seq<Skill>) returns (totalScore: int)
    ensures totalScore == Score(contributorSkills, projectSkills)
  {
    var contributorRecord := ToSkillRecord(contributorSkills);
    var projectRecord := ToSkillRecord(projectSkills);
    var overallSkillNames := ComputeKeyUnion(contributorRecord, projectRecord);
    totalScore := 0;
    for i := 0 to |overallSkillNames|
      invariant totalScore == TermSum(overallSkillNames[..i], contributorRecord, projectRecord)
    {
      var name := overallSkillNames[i];
      assert overallSkillNames[..i + 1][..i] == overallSkillNames[..i];
      totalScore := totalScore + ScoreProficiency(Level(contributorRecord, name), Level(projectRecord, name));
    }
    assert overallSkillNames[..|overallSkillNames|] == overallSkillNames;
  }
}
