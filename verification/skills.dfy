/**
 * The skill value types of src/model/Skill.ts: a closed ordinal scale of
 * proficiency levels and a named skill carrying one level.
 */
module Skills {

  /** The four proficiency levels; the TypeScript enum numbers them 0 to 3. */
  datatype Proficiency = NONE | BEGINNER | MEDIUM | ADVANCED
  {
    /** The number the enum member stands for. */
    function Value(): (v: int)
      ensures 0 <= v <= 3
      ensures v == 0 <==> this == NONE
      ensures v == 3 <==> this == ADVANCED
    {
      match this
      case NONE => 0
      case BEGINNER => 1
      case MEDIUM => 2
      case ADVANCED => 3
    }
  }

  /** The enum member with a given number, the reverse of `Value`. */
  function FromValue(v: int): (p: Proficiency)
    requires 0 <= v <= 3
    ensures p.Value() == v
  {
    if v == 0 then NONE else if v == 1 then BEGINNER else if v == 2 then MEDIUM else ADVANCED
  }

  /** Every level is one of the four members, and distinct members carry distinct numbers. */
  lemma ExactlyFourLevels(p: Proficiency, q: Proficiency)
    ensures p == NONE || p == BEGINNER || p == MEDIUM || p == ADVANCED
    ensures p.Value() == q.Value() <==> p == q
    ensures FromValue(p.Value()) == p
  {
  }

  /** Levels are totally ordered by their numbers. */
  predicate AtMost(a: Proficiency, b: Proficiency)
  {
    a.Value() <= b.Value()
  }

  lemma AtMostIsTotalOrder(a: Proficiency, b: Proficiency, c: Proficiency)
    ensures AtMost(a, a)
    ensures AtMost(a, b) || AtMost(b, a)
    ensures AtMost(a, b) && AtMost(b, a) ==> a == b
    ensures AtMost(a, b) && AtMost(b, c) ==> AtMost(a, c)
    ensures AtMost(NONE, a)
  {
  }

  /** The numeric gap `|a - b|` between two levels. */
  function Distance(a: Proficiency, b: Proficiency): (d: nat)
    ensures d <= 3
    ensures d == 0 <==> a == b
    ensures d == 3 <==> {a, b} == {NONE, ADVANCED}
  {
    if a.Value() >= b.Value() then a.Value() - b.Value() else b.Value() - a.Value()
  }

  lemma DistanceSymmetric(a: Proficiency, b: Proficiency)
    ensures Distance(a, b) == Distance(b, a)
  {
  }

  /** A skill: a name and one proficiency level. */
  datatype Skill = Skill(name: string, proficiency: Proficiency)
}
