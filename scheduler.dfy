/** The section-assignment constraint model: every student has two integer
    slots, each holding a section id (1-based) or 0 for "no section"; every
    section must be taken by some slot, no slot may take a section that
    clashes with one of the student's own classes, and no student may take two
    sections that clash with each other. `MakeConstraints` builds the solver's
    assertion list; `Valid` states what a model of that list means. */
module Scheduler {
  import opened Formulas

  /** A closed time interval `[start, end]` (scheduler.py writes it as a two-element list of floats). */
  datatype Interval = Interval(start: real, end: real)

  /** One entry of the student dictionary: the key and the student's fixed class times. */
  datatype Student = Student(name: string, classes: seq<Interval>)

  predicate WellFormed(iv: Interval)
  {
    iv.start <= iv.end
  }

  /** Two intervals are compatible when neither has an endpoint inside the other. For
      well-formed intervals this is strict separation, so intervals that only touch clash. */
  function Compat(a: Interval, b: Interval): (r: bool)
    ensures WellFormed(a) && WellFormed(b) ==> (r <==> a.end < b.start || b.end < a.start)
  {
    var firstOverlap := (a.start <= b.start <= a.end) || (a.start <= b.end <= a.end);
    var secondOverlap := (b.start <= a.start <= b.end) || (b.start <= a.end <= b.end);
    !(firstOverlap || secondOverlap)
  }

  lemma CompatSymmetric(a: Interval, b: Interval)
    ensures Compat(a, b) == Compat(b, a)
  {
  }

  lemma CompatIrreflexive(a: Interval)
    requires WellFormed(a)
    ensures !Compat(a, a)
  {
  }

  /** A class schedule clashes with a section when one of its classes is incompatible with it;
      for well-formed intervals, when one class is not strictly separated from the section. */
  predicate Clashes(classes: seq<Interval>, section: Interval): (r: bool)
    ensures (forall c :: c in classes ==> WellFormed(c)) && WellFormed(section) ==>
      (r <==> exists c :: c in classes && section.start <= c.end && c.start <= section.end)
  {
    exists c :: c in classes && !Compat(c, section)
  }

  // ---------------------------------------------------------------------------
  // What a model of the constraint set means: one conjunct per group of `s.add`.
  // ---------------------------------------------------------------------------

  /** Every slot of the `count` students holds 0 (no section) or a section id in 1..n. */
  predicate SlotsInRange(count: nat, n: nat, m: Model)
  {
    forall k, i :: 0 <= k < count && 0 <= i < 2 ==> 0 <= m(Var(k, i)) <= n
  }

  /** Some slot of some student holds section `id`. */
  predicate Held(count: nat, m: Model, id: int)
  {
    exists k, i :: 0 <= k < count && 0 <= i < 2 && m(Var(k, i)) == id
  }

  predicate EverySectionHeld(count: nat, n: nat, m: Model)
  {
    forall id :: 1 <= id <= n ==> Held(count, m, id)
  }

  /** No slot holds a section that clashes with one of its student's classes. */
  predicate NoClassClash(students: seq<Student>, sections: seq<Interval>, m: Model)
  {
    forall k, i :: 0 <= k < |students| && 0 <= i < 2 && 1 <= m(Var(k, i)) <= |sections| ==>
      !Clashes(students[k].classes, sections[m(Var(k, i)) - 1])
  }

  /** Slot values `a` and `b` do not name two clashing sections. */
  predicate SlotsCompatible(sections: seq<Interval>, a: int, b: int)
  {
    1 <= a <= |sections| && 1 <= b <= |sections| ==> Compat(sections[a - 1], sections[b - 1])
  }

  /** No student's two slots hold clashing sections. */
  predicate NoSectionClash(count: nat, sections: seq<Interval>, m: Model)
  {
    forall k :: 0 <= k < count ==> SlotsCompatible(sections, m(Var(k, 0)), m(Var(k, 1)))
  }

  predicate Valid(students: seq<Student>, sections: seq<Interval>, m: Model)
  {
    && SlotsInRange(|students|, |sections|, m)
    && EverySectionHeld(|students|, |sections|, m)
    && NoClassClash(students, sections, m)
    && NoSectionClash(|students|, sections, m)
  }

  // ---------------------------------------------------------------------------
  // Building the constraint set.
  // ---------------------------------------------------------------------------

  /** The slot variables of the first `count` students, in creation order. */
  function FlatVars(count: nat): seq<Var>
  {
    if count == 0 then [] else FlatVars(count - 1) + SlotVars(count - 1)
  }

  lemma {:induction false} FlatVarsMembers(count: nat)
    ensures forall v :: v in FlatVars(count) <==> v.student < count && v.slot < 2
  {
    if count > 0 {
      FlatVarsMembers(count - 1);
    }
  }

  /** The two slot variables of the student at position `k`. */
  function SlotVars(k: nat): seq<Var>
  {
    [Var(k, 0), Var(k, 1)]
  }

  /** Every variable of `vars` is bounded to 0..n. */
  predicate AllInRange(vars: seq<Var>, n: nat, m: Model)
  {
    forall v :: v in vars ==> 0 <= m(v) <= n
  }

  lemma FlatVarsInRange(count: nat, n: nat, m: Model)
    ensures AllInRange(FlatVars(count), n, m) <==> SlotsInRange(count, n, m)
  {
    FlatVarsMembers(count);
    if SlotsInRange(count, n, m) {
      forall v | v in FlatVars(count) ensures 0 <= m(v) <= n {
        assert v == Var(v.student, v.slot);
      }
    }
  }

  /** Bounding one more variable keeps the bound assertions equivalent to the bounds on
      the variables created so far. */
  lemma BoundsStep(before: seq<Formula>, vars: seq<Var>, sv: Var, n: nat)
    requires forall m :: Satisfies(before, m) <==> AllInRange(vars, n, m)
    ensures forall m :: Satisfies(before + [Ge(sv, 0)] + [Le(sv, n)], m) <==> AllInRange(vars + [sv], n, m)
  {
    forall m ensures Satisfies(before + [Ge(sv, 0)] + [Le(sv, n)], m) <==> AllInRange(vars + [sv], n, m) {
      SatisfiesSnoc(before, Ge(sv, 0), m);
      SatisfiesSnoc(before + [Ge(sv, 0)], Le(sv, n), m);
      assert sv in vars + [sv];
    }
  }

  /** Creates the two slot variables of every student and bounds each to 0..|sections|. */
  method SlotVariables(students: seq<Student>, sections: seq<Interval>)
    returns (assertions: seq<Formula>, flattenedVars: seq<Var>, studentVars: seq<seq<Var>>)
    ensures flattenedVars == FlatVars(|students|)
    ensures |studentVars| == |students|
    ensures forall k :: 0 <= k < |students| ==> studentVars[k] == SlotVars(k)
    ensures forall m :: Satisfies(assertions, m) <==> SlotsInRange(|students|, |sections|, m)
  {
    assertions, flattenedVars, studentVars := [], [], [];
    for k := 0 to |students|
      invariant flattenedVars == FlatVars(k)
      invariant |studentVars| == k
      invariant forall k' :: 0 <= k' < k ==> studentVars[k'] == SlotVars(k')
      invariant forall m :: Satisfies(assertions, m) <==> AllInRange(flattenedVars, |sections|, m)
    {
      var vars := [];
      for i := 0 to 2
        invariant |vars| == i
        invariant forall i' :: 0 <= i' < i ==> vars[i'] == Var(k, i')
        invariant flattenedVars == FlatVars(k) + vars
        invariant forall m :: Satisfies(assertions, m) <==> AllInRange(flattenedVars, |sections|, m)
      {
        var sv := Var(k, i);
        BoundsStep(assertions, flattenedVars, sv, |sections|);
        assertions := assertions + [Ge(sv, 0)];
        assertions := assertions + [Le(sv, |sections|)];
        flattenedVars := flattenedVars + [sv];
        vars := vars + [sv];
      }
      assert vars == SlotVars(k);
      studentVars := studentVars + [vars];
    }
    forall m ensures AllInRange(flattenedVars, |sections|, m) <==> SlotsInRange(|students|, |sections|, m) {
      FlatVarsInRange(|students|, |sections|, m);
    }
  }

  /** Some variable of `vars` holds section `id`. */
  predicate HeldBy(vars: seq<Var>, m: Model, id: int)
  {
    exists v :: v in vars && m(v) == id
  }

  /** Every section id 1..n is held by some variable of `vars`. */
  predicate AllHeldBy(vars: seq<Var>, n: nat, m: Model)
  {
    forall id :: 1 <= id <= n ==> HeldBy(vars, m, id)
  }

  /** The formulas `v == id`, one for each variable of `vars` in order. */
  function AnyOneSection(vars: seq<Var>, id: int): (fs: seq<Formula>)
    ensures forall m :: Eval(Or(fs), m) <==> HeldBy(vars, m, id)
  {
    var fs := seq(|vars|, j requires 0 <= j < |vars| => Eq(vars[j], id));
    assert forall m :: HeldBy(vars, m, id) ==> Eval(Or(fs), m) by {
      forall m | HeldBy(vars, m, id) ensures Eval(Or(fs), m) {
        var v :| v in vars && m(v) == id;
        var j :| 0 <= j < |vars| && vars[j] == v;
        assert fs[j] in fs;
      }
    }
    fs
  }

  /** The single assertion that every section id 1..|sections| is held by one of `flattenedVars`. */
  method Coverage(flattenedVars: seq<Var>, sections: seq<Interval>) returns (coverage: Formula)
    ensures forall m :: Eval(coverage, m) <==> AllHeldBy(flattenedVars, |sections|, m)
  {
    var allSectionsMatched := [];
    for required := 1 to |sections| + 1
      invariant forall m :: Satisfies(allSectionsMatched, m) <==>
        forall id :: 1 <= id < required ==> HeldBy(flattenedVars, m, id)
    {
      ghost var before := allSectionsMatched;
      var anyOneSection := AnyOneSection(flattenedVars, required);
      allSectionsMatched := allSectionsMatched + [Or(anyOneSection)];
      forall m ensures Satisfies(allSectionsMatched, m) <==> Satisfies(before, m) && HeldBy(flattenedVars, m, required) {
        SatisfiesSnoc(before, Or(anyOneSection), m);
      }
    }
    coverage := And(allSectionsMatched);
    assert forall m :: Eval(coverage, m) == Satisfies(allSectionsMatched, m);
  }

  lemma FlatVarsHold(count: nat, m: Model, id: int)
    ensures HeldBy(FlatVars(count), m, id) <==> Held(count, m, id)
  {
    FlatVarsMembers(count);
    if Held(count, m, id) {
      var k, i :| 0 <= k < count && 0 <= i < 2 && m(Var(k, i)) == id;
      assert Var(k, i) in FlatVars(count);
    }
  }

  /** If `classes` clash with section `id`, no variable of `vars` holds `id`. */
  predicate Excluded(classes: seq<Interval>, sections: seq<Interval>, id: int, vars: seq<Var>, m: Model)
    requires 1 <= id <= |sections|
  {
    Clashes(classes, sections[id - 1]) ==> forall v :: v in vars ==> m(v) != id
  }

  /** `Excluded` for every section id below `bound`. */
  predicate ExcludedBelow(classes: seq<Interval>, sections: seq<Interval>, vars: seq<Var>, m: Model, bound: int)
  {
    forall id :: 1 <= id < bound && id <= |sections| ==> Excluded(classes, sections, id, vars, m)
  }

  /** `Excluded` for every section id and each of the first `count` students. */
  predicate StudentsExcluded(students: seq<Student>, sections: seq<Interval>, studentVars: seq<seq<Var>>, count: nat, m: Model)
    requires count <= |students| && count <= |studentVars|
  {
    forall k :: 0 <= k < count ==> ExcludedBelow(students[k].classes, sections, studentVars[k], m, |sections| + 1)
  }

  /** For every student, every section and every class of the student that clashes with
      the section, asserts that none of the student's variables holds the section. */
  method ClassExclusions(students: seq<Student>, sections: seq<Interval>, studentVars: seq<seq<Var>>)
    returns (assertions: seq<Formula>)
    requires |studentVars| == |students|
    ensures forall m :: Satisfies(assertions, m) <==> StudentsExcluded(students, sections, studentVars, |students|, m)
  {
    assertions := [];
    for k := 0 to |students|
      invariant forall m :: Satisfies(assertions, m) <==> StudentsExcluded(students, sections, studentVars, k, m)
    {
      var studentSchedule := students[k].classes;
      var currentStudentVariables := studentVars[k];
      ghost var atStudent := assertions;
      for sectionId := 1 to |sections| + 1
        invariant forall m :: Satisfies(assertions, m) <==>
          Satisfies(atStudent, m) && ExcludedBelow(studentSchedule, sections, currentStudentVariables, m, sectionId)
      {
        var i := sectionId - 1;
        ghost var atSection := assertions;
        for c := 0 to |studentSchedule|
          invariant forall m :: Satisfies(assertions, m) <==>
            Satisfies(atSection, m) &&
            (Clashes(studentSchedule[..c], sections[i]) ==> forall v :: v in currentStudentVariables ==> m(v) != sectionId)
        {
          ghost var atClass := assertions;
          if !Compat(studentSchedule[c], sections[i]) {
            for j := 0 to |currentStudentVariables|
              invariant forall m :: Satisfies(assertions, m) <==>
                Satisfies(atClass, m) && forall j' :: 0 <= j' < j ==> m(currentStudentVariables[j']) != sectionId
            {
              ghost var atVar := assertions;
              assertions := assertions + [Ne(currentStudentVariables[j], sectionId)];
              forall m ensures Satisfies(assertions, m) <==> Satisfies(atVar, m) && m(currentStudentVariables[j]) != sectionId {
                SatisfiesSnoc(atVar, Ne(currentStudentVariables[j], sectionId), m);
              }
            }
          }
          assert studentSchedule[..c + 1] == studentSchedule[..c] + [studentSchedule[c]];
        }
        assert studentSchedule[..|studentSchedule|] == studentSchedule;
        forall m ensures ExcludedBelow(studentSchedule, sections, currentStudentVariables, m, sectionId + 1) <==>
          ExcludedBelow(studentSchedule, sections, currentStudentVariables, m, sectionId) &&
          Excluded(studentSchedule, sections, sectionId, currentStudentVariables, m)
        {
        }
      }
    }
  }

  /** Lexicographic order on pairs of section ids. */
  predicate PairBefore(p: (int, int), q: (int, int))
  {
    p.0 < q.0 || (p.0 == q.0 && p.1 < q.1)
  }

  /** `pairs` lists, in increasing lexicographic order and without repetition, exactly the
      pairs of section ids `(a, b)` with `a <= b` whose sections clash. */
  ghost predicate IsIncompatiblePairList(sections: seq<Interval>, pairs: seq<(int, int)>)
  {
    && (forall p :: p in pairs <==> 1 <= p.0 <= p.1 <= |sections| && !Compat(sections[p.0 - 1], sections[p.1 - 1]))
    && (forall x, y :: 0 <= x < y < |pairs| ==> PairBefore(pairs[x], pairs[y]))
  }

  method IncompatiblePairs(sections: seq<Interval>) returns (incompatiblePairs: seq<(int, int)>)
    ensures IsIncompatiblePairList(sections, incompatiblePairs)
  {
    incompatiblePairs := [];
    for sectionId1 := 1 to |sections| + 1
      invariant forall p :: p in incompatiblePairs <==>
        1 <= p.0 < sectionId1 && p.0 <= p.1 <= |sections| && !Compat(sections[p.0 - 1], sections[p.1 - 1])
      invariant forall x, y :: 0 <= x < y < |incompatiblePairs| ==> PairBefore(incompatiblePairs[x], incompatiblePairs[y])
    {
      var i := sectionId1 - 1;
      for sectionId2 := sectionId1 to |sections| + 1
        invariant forall p :: p in incompatiblePairs <==>
          (1 <= p.0 < sectionId1 && p.0 <= p.1 <= |sections| && !Compat(sections[p.0 - 1], sections[p.1 - 1])) ||
          (p.0 == sectionId1 && sectionId1 <= p.1 < sectionId2 && !Compat(sections[p.0 - 1], sections[p.1 - 1]))
        invariant forall x, y :: 0 <= x < y < |incompatiblePairs| ==> PairBefore(incompatiblePairs[x], incompatiblePairs[y])
        invariant forall p :: p in incompatiblePairs ==> PairBefore(p, (sectionId1, sectionId2))
      {
        var j := sectionId2 - 1;
        if !Compat(sections[i], sections[j]) {
          incompatiblePairs := incompatiblePairs + [(sectionId1, sectionId2)];
        }
      }
    }
  }

  /** Slot values `x` and `y` are the pair `p`, in either order. */
  predicate PairTaken(x: int, y: int, p: (int, int))
  {
    (x == p.0 && y == p.1) || (x == p.1 && y == p.0)
  }

  /** No pair of `pairs` is taken by slot values `x` and `y`. */
  predicate PairsAvoided(pairs: seq<(int, int)>, x: int, y: int)
  {
    forall p :: p in pairs ==> !PairTaken(x, y, p)
  }

  /** The assertion that `sv1` and `sv2` do not hold the sections `a` and `b`, in either order. */
  function PairExclusion(sv1: Var, sv2: Var, a: int, b: int): (f: Formula)
    ensures forall m :: Eval(f, m) <==> !PairTaken(m(sv1), m(sv2), (a, b))
  {
    var straight := And([Eq(sv1, a), Eq(sv2, b)]);
    var swapped := And([Eq(sv1, b), Eq(sv2, a)]);
    assert forall m :: Eval(straight, m) <==> m(sv1) == a && m(sv2) == b by {
      forall m ensures Eval(straight, m) <==> m(sv1) == a && m(sv2) == b {
        assert Eq(sv1, a) in straight.conjuncts && Eq(sv2, b) in straight.conjuncts;
      }
    }
    assert forall m :: Eval(swapped, m) <==> m(sv1) == b && m(sv2) == a by {
      forall m ensures Eval(swapped, m) <==> m(sv1) == b && m(sv2) == a {
        assert Eq(sv1, b) in swapped.conjuncts && Eq(sv2, a) in swapped.conjuncts;
      }
    }
    assert forall m :: Eval(Or([straight, swapped]), m) <==> Eval(straight, m) || Eval(swapped, m) by {
      forall m ensures Eval(Or([straight, swapped]), m) <==> Eval(straight, m) || Eval(swapped, m) {
        assert straight in [straight, swapped] && swapped in [straight, swapped];
      }
    }
    Not(Or([straight, swapped]))
  }

  /** For every student with exactly two variables and every listed pair, asserts that the
      student's two variables do not hold that pair. */
  method PairExclusions(studentVars: seq<seq<Var>>, incompatiblePairs: seq<(int, int)>)
    returns (assertions: seq<Formula>)
    ensures forall m :: Satisfies(assertions, m) <==>
      forall k :: 0 <= k < |studentVars| && |studentVars[k]| == 2 ==>
        PairsAvoided(incompatiblePairs, m(studentVars[k][0]), m(studentVars[k][1]))
  {
    assertions := [];
    for k := 0 to |studentVars|
      invariant forall m :: Satisfies(assertions, m) <==>
        forall k' :: 0 <= k' < k && |studentVars[k']| == 2 ==>
          PairsAvoided(incompatiblePairs, m(studentVars[k'][0]), m(studentVars[k'][1]))
    {
      var currentStudentVariables := studentVars[k];
      ghost var atStudent := assertions;
      if |currentStudentVariables| == 2 {
        var sv1 := currentStudentVariables[0];
        var sv2 := currentStudentVariables[1];
        for q := 0 to |incompatiblePairs|
          invariant forall m :: Satisfies(assertions, m) <==>
            Satisfies(atStudent, m) && PairsAvoided(incompatiblePairs[..q], m(sv1), m(sv2))
        {
          var (a, b) := incompatiblePairs[q];
          ghost var atPair := assertions;
          assertions := assertions + [PairExclusion(sv1, sv2, a, b)];
          forall m ensures Satisfies(assertions, m) <==> Satisfies(atPair, m) && !PairTaken(m(sv1), m(sv2), (a, b)) {
            SatisfiesSnoc(atPair, PairExclusion(sv1, sv2, a, b), m);
          }
          assert incompatiblePairs[..q + 1] == incompatiblePairs[..q] + [(a, b)];
        }
        assert incompatiblePairs[..|incompatiblePairs|] == incompatiblePairs;
      }
    }
  }

  // ---------------------------------------------------------------------------
  // The generated assertions mean `Valid`.
  // ---------------------------------------------------------------------------

  lemma CoverageMeaning(count: nat, n: nat, m: Model)
    ensures AllHeldBy(FlatVars(count), n, m) <==> EverySectionHeld(count, n, m)
  {
    forall id ensures HeldBy(FlatVars(count), m, id) <==> Held(count, m, id) {
      FlatVarsHold(count, m, id);
    }
  }

  lemma ClassExclusionMeaning(students: seq<Student>, sections: seq<Interval>, studentVars: seq<seq<Var>>, m: Model)
    requires |studentVars| == |students|
    requires forall k :: 0 <= k < |students| ==> studentVars[k] == SlotVars(k)
    ensures StudentsExcluded(students, sections, studentVars, |students|, m) <==> NoClassClash(students, sections, m)
  {
    if StudentsExcluded(students, sections, studentVars, |students|, m) {
      forall k, i | 0 <= k < |students| && 0 <= i < 2 && 1 <= m(Var(k, i)) <= |sections|
        ensures !Clashes(students[k].classes, sections[m(Var(k, i)) - 1])
      {
        assert Excluded(students[k].classes, sections, m(Var(k, i)), studentVars[k], m);
        assert Var(k, i) in studentVars[k];
      }
    }
    if NoClassClash(students, sections, m) {
      forall k | 0 <= k < |students|
        ensures ExcludedBelow(students[k].classes, sections, studentVars[k], m, |sections| + 1)
      {
        forall id | 1 <= id <= |sections| ensures Excluded(students[k].classes, sections, id, studentVars[k], m) {
          if Clashes(students[k].classes, sections[id - 1]) {
            forall v | v in studentVars[k] ensures m(v) != id {
              assert v == Var(k, 0) || v == Var(k, 1);
            }
          }
        }
      }
    }
  }

  lemma PairsAvoidedMeaning(sections: seq<Interval>, pairs: seq<(int, int)>, x: int, y: int)
    requires IsIncompatiblePairList(sections, pairs)
    ensures PairsAvoided(pairs, x, y) <==> SlotsCompatible(sections, x, y)
  {
    if 1 <= x <= |sections| && 1 <= y <= |sections| {
      CompatSymmetric(sections[x - 1], sections[y - 1]);
      if !Compat(sections[x - 1], sections[y - 1]) {
        var p := if x <= y then (x, y) else (y, x);
        assert p in pairs && PairTaken(x, y, p);
      }
    }
  }

  lemma PairExclusionMeaning(sections: seq<Interval>, pairs: seq<(int, int)>, studentVars: seq<seq<Var>>, m: Model)
    requires IsIncompatiblePairList(sections, pairs)
    requires forall k :: 0 <= k < |studentVars| ==> studentVars[k] == SlotVars(k)
    ensures (forall k :: 0 <= k < |studentVars| && |studentVars[k]| == 2 ==>
               PairsAvoided(pairs, m(studentVars[k][0]), m(studentVars[k][1])))
            <==> NoSectionClash(|studentVars|, sections, m)
  {
    forall k | 0 <= k < |studentVars|
      ensures PairsAvoided(pairs, m(studentVars[k][0]), m(studentVars[k][1])) <==>
        SlotsCompatible(sections, m(Var(k, 0)), m(Var(k, 1)))
    {
      assert studentVars[k][0] == Var(k, 0) && studentVars[k][1] == Var(k, 1);
      PairsAvoidedMeaning(sections, pairs, m(Var(k, 0)), m(Var(k, 1)));
    }
  }

  /** The constraint set of the scheduler: a model satisfies every assertion exactly when it
      is a valid assignment of students to sections. */
  method MakeConstraints(students: seq<Student>, sections: seq<Interval>) returns (assertions: seq<Formula>)
    ensures forall m :: Satisfies(assertions, m) <==> Valid(students, sections, m)
  {
    var bounds, flattenedVars, studentVars := SlotVariables(students, sections);
    var coverage := Coverage(flattenedVars, sections);
    var classExclusions := ClassExclusions(students, sections, studentVars);
    var incompatiblePairs := IncompatiblePairs(sections);
    var pairExclusions := PairExclusions(studentVars, incompatiblePairs);
    assertions := bounds + [coverage] + classExclusions + pairExclusions;
    forall m ensures Satisfies(assertions, m) <==> Valid(students, sections, m) {
      SatisfiesSnoc(bounds, coverage, m);
      SatisfiesConcat(bounds + [coverage], classExclusions, m);
      SatisfiesConcat(bounds + [coverage] + classExclusions, pairExclusions, m);
      CoverageMeaning(|students|, |sections|, m);
      ClassExclusionMeaning(students, sections, studentVars, m);
      PairExclusionMeaning(sections, incompatiblePairs, studentVars, m);
    }
  }

  // ---------------------------------------------------------------------------
  // Properties of valid assignments.
  // ---------------------------------------------------------------------------

  /** Every well-formed section clashes with itself, so the pair `(id, id)` is listed for every section id. */
  lemma DiagonalPairsListed(sections: seq<Interval>, pairs: seq<(int, int)>)
    requires IsIncompatiblePairList(sections, pairs)
    requires forall s :: s in sections ==> WellFormed(s)
    ensures forall id :: 1 <= id <= |sections| ==> (id, id) in pairs
  {
    forall id | 1 <= id <= |sections| ensures (id, id) in pairs {
      CompatIrreflexive(sections[id - 1]);
    }
  }

  /** With well-formed sections, no student holds the same section in both slots. */
  lemma NoSectionTwice(students: seq<Student>, sections: seq<Interval>, m: Model)
    requires forall s :: s in sections ==> WellFormed(s)
    requires Valid(students, sections, m)
    ensures forall k :: 0 <= k < |students| ==> m(Var(k, 0)) == 0 || m(Var(k, 0)) != m(Var(k, 1))
  {
    forall k | 0 <= k < |students| ensures m(Var(k, 0)) == 0 || m(Var(k, 0)) != m(Var(k, 1)) {
      var x := m(Var(k, 0));
      if 1 <= x <= |sections| {
        CompatIrreflexive(sections[x - 1]);
      }
    }
  }

  /** The set of section ids held by the slots of the first `count` students. */
  function HeldValues(count: nat, m: Model): (held: set<int>)
    ensures |held| <= 2 * count
  {
    if count == 0 then {} else HeldValues(count - 1, m) + {m(Var(count - 1, 0)), m(Var(count - 1, 1))}
  }

  lemma {:induction false} HeldValuesMembership(count: nat, m: Model, id: int)
    ensures id in HeldValues(count, m) <==> Held(count, m, id)
  {
    if count > 0 {
      HeldValuesMembership(count - 1, m, id);
      if Held(count, m, id) {
        var k, i :| 0 <= k < count && 0 <= i < 2 && m(Var(k, i)) == id;
        if k < count - 1 {
          assert Held(count - 1, m, id);
        }
      }
      if Held(count - 1, m, id) {
        var k, i :| 0 <= k < count - 1 && 0 <= i < 2 && m(Var(k, i)) == id;
        assert Held(count, m, id);
      }
      assert m(Var(count - 1, 0)) == id ==> Held(count, m, id);
      assert m(Var(count - 1, 1)) == id ==> Held(count, m, id);
    }
  }

  /** The section ids 1..n. */
  function IdRange(n: nat): (ids: set<int>)
    ensures forall id :: id in ids <==> 1 <= id <= n
    ensures |ids| == n
  {
    if n == 0 then {} else IdRange(n - 1) + {n}
  }

  lemma SubsetCardinality(a: set<int>, b: set<int>)
    requires a <= b
    ensures |a| <= |b|
  {
    assert b == a + (b - a);
    assert |a + (b - a)| == |a| + |b - a|;
  }

  /** Two slots per student cannot cover more than twice as many sections as there are students. */
  lemma TooManySectionsUnsat(students: seq<Student>, sections: seq<Interval>, m: Model)
    requires |sections| > 2 * |students|
    ensures !Valid(students, sections, m)
  {
    var ids := IdRange(|sections|);
    var held := HeldValues(|students|, m);
    if ids <= held {
      SubsetCardinality(ids, held);
      assert false;
    }
    var id :| id in ids && id !in held;
    HeldValuesMembership(|students|, m, id);
    assert !Held(|students|, m, id);
  }

  /** One student and two sections that clash: both sections must be held, so the student
      holds both, which the pair exclusion forbids. */
  lemma ClashingSectionsUnsat(student: Student, a: Interval, b: Interval, m: Model)
    requires !Compat(a, b)
    ensures !Valid([student], [a, b], m)
  {
    var x, y := m(Var(0, 0)), m(Var(0, 1));
    if (x == 1 && y == 2) || (x == 2 && y == 1) {
      CompatSymmetric(a, b);
      assert !SlotsCompatible([a, b], x, y);
    } else {
      assert !Held(1, m, 1) || !Held(1, m, 2);
    }
  }

  /** A student with no classes cannot be given two identical sections. */
  lemma OneStudentOverlapUnsat(m: Model)
    ensures !Valid([Student("charlie", [])], [Interval(9.0, 10.0), Interval(9.0, 10.0)], m)
  {
    ClashingSectionsUnsat(Student("charlie", []), Interval(9.0, 10.0), Interval(9.0, 10.0), m);
  }

  /** Sections that only touch at 10:00 clash too, so one student cannot take both. */
  lemma BackToBackUnsat(m: Model)
    ensures !Valid([Student("charlie", [])], [Interval(9.0, 10.0), Interval(10.0, 11.0)], m)
  {
    ClashingSectionsUnsat(Student("charlie", []), Interval(9.0, 10.0), Interval(10.0, 11.0), m);
  }

  const SAMPLE_STUDENTS := [
    Student("alice", [Interval(13.5, 14.5), Interval(9.5, 10.75)]),
    Student("bob", [Interval(9.5, 11.0)]),
    Student("charlie", [])
  ]

  const SAMPLE_SECTIONS := [Interval(8.0, 9.0), Interval(9.0, 10.0), Interval(11.0, 12.0), Interval(13.0, 14.0)]

  /** The sample instance has a valid assignment: alice takes sections 1 and 3, bob takes 4
      and charlie takes 2. */
  lemma SampleSatisfiable()
    ensures exists m :: Valid(SAMPLE_STUDENTS, SAMPLE_SECTIONS, m)
  {
    var m: Model := v =>
      if v == Var(0, 0) then 1
      else if v == Var(0, 1) then 3
      else if v == Var(1, 0) then 4
      else if v == Var(2, 0) then 2
      else 0;
    assert m(Var(0, 0)) == 1 && m(Var(0, 1)) == 3 && m(Var(1, 0)) == 4 && m(Var(2, 0)) == 2;
    assert Valid(SAMPLE_STUDENTS, SAMPLE_SECTIONS, m);
  }
}
