# Section-assignment and office-hours constraint models

This project models two small constraint scripts that state scheduling problems
for the z3 solver, and proves what their constraints mean.

- **Section assignment** (`scheduler.py`). Every student has two integer slots.
  A slot holds a section id from 1 to the number of sections, or 0 for "no
  section". `make_constraints` adds four groups of assertions to a solver:
  - each slot lies in `0..n`;
  - every section is held by some slot;
  - no slot holds a section that clashes with one of the student's own classes;
  - no student holds two sections that clash, using a list of incompatible
    section pairs that is built first.

  Two intervals are compatible (`compat`) when neither has an endpoint inside
  the other.
- **Office hours** (`officehours.py`). `Day` is a five-day week. `TimeBlock` is
  either `timeblock(day, starttime, endtime)` or `none`. Two overlap tests are
  defined: one on the hours alone and one on hours and day. One fixed query asks
  for a Thursday block that avoids Thursday 9-11.

The Dafny modules follow the scripts:

- `Formulas` (`formulas.dfy`) is the part of z3's integer logic that the scheduler
  uses. It defines formulas, their truth in a model (`Var -> int`), and a
  solver's assertion list read as a conjunction.
- `Scheduler` (`scheduler.dfy`) holds `Compat` and `Valid`. `Valid` has one
  conjunct for each group of `s.add` calls. It also holds the methods that build
  the assertion list with `make_constraints`' own loops, and the lemmas about valid
  assignments.
- `OfficeHours` (`officehours.dfy`) holds the block datatype, the two overlap
  predicates and the Thursday query.
- `Agreement` (`agreement.dfy`) proves that the two scripts' interval tests
  agree on well-formed intervals: compatible means not overlapping. On
  ill-formed ones they can differ.

The main result is the postcondition of `Scheduler.MakeConstraints`. A model
satisfies every assertion that `make_constraints` adds exactly when it is
`Valid`. So each property proved about `Valid` is a property of the solver's
constraint set.

Two points where the model follows the code closely:

- The code does not require `start <= end` of a `timeblock` or of an interval,
  so the model allows ill-formed blocks. Every characterisation that needs
  well-formedness says so in its `requires` or as the premise of its `ensures`.
- The code tests overlap with the two-case form (one block starts inside the
  other), not with the single test `start1 <= end2 && start2 <= end1`. The two
  agree on all well-formed blocks (`OfficeHours.Overlap`). On ill-formed blocks
  they can differ, for example `[0,5]` against `[3,-1]`.

## Model

| member | source | states |
|---|---|---|
| `Scheduler.Compat` | scheduler.py:12-16 | for well-formed intervals, compatible iff one ends strictly before the other starts, so touching intervals clash |
| `Scheduler.CompatSymmetric` | scheduler.py:12-16 | compatibility does not depend on argument order |
| `Scheduler.CompatIrreflexive` | scheduler.py:12-16 | a well-formed interval is never compatible with itself |
| `Scheduler.Clashes` | scheduler.py:48-49 | a student's classes clash with a section iff some class is not `compat` with it; for well-formed intervals, iff some class is not strictly separated from the section |
| `Scheduler.Valid` | scheduler.py:26-76 | what a satisfying model means, one conjunct per group of `s.add`: every slot in `0..n`, every section id held by some slot, no slot holding a section that clashes with its student's classes, no student holding two clashing sections |
| `Scheduler.FlatVars` | scheduler.py:26-31 | `flattened_vars`: the two slot variables of each student, student by student, in creation order |
| `Scheduler.SlotVars` | scheduler.py:27-32 | `student_vars[key]`: the student's slot variables 0 and 1 |
| `Scheduler.FlatVarsMembers` | scheduler.py:26-32 | the flattened variable list holds exactly the two slots of each student |
| `Scheduler.FlatVarsInRange` | scheduler.py:26-32 | bounding every flattened variable is bounding every slot of every student |
| `Scheduler.SlotVariables` | scheduler.py:24-32 | builds the flattened and per-student variable lists; a model satisfies the bounds it adds iff every slot is in `0..n` |
| `Scheduler.AnyOneSection` | scheduler.py:37 | the disjunction of `sv == id` over the variables holds iff some variable holds `id` |
| `Scheduler.Coverage` | scheduler.py:34-39 | the single coverage assertion holds iff every id `1..n` is held by some flattened variable |
| `Scheduler.FlatVarsHold` | scheduler.py:34-39 | some flattened variable holds `id` iff some slot of some student holds it |
| `Scheduler.CoverageMeaning` | scheduler.py:34-39 | the coverage assertion means every section is held by some slot |
| `Scheduler.ClassExclusions` | scheduler.py:41-51 | a model satisfies the assertions added iff, whenever a class clashes with section `id`, none of that student's variables holds `id` |
| `Scheduler.ClassExclusionMeaning` | scheduler.py:41-51 | those exclusions mean no slot holds a section that clashes with one of its student's classes |
| `Scheduler.IncompatiblePairs` | scheduler.py:56-62 | the list holds exactly the pairs `(a, b)` with `1 <= a <= b <= n` whose sections are incompatible, in strictly increasing lexicographic order |
| `Scheduler.DiagonalPairsListed` | scheduler.py:56-62 | with well-formed sections, every `(id, id)` is in the list |
| `Scheduler.PairExclusion` | scheduler.py:73-76 | the assertion for pair `(a, b)` holds iff the two slots are not `a, b` in either order |
| `Scheduler.PairExclusions` | scheduler.py:66-76 | a model satisfies the assertions added iff no student with two variables holds a listed pair, in either order |
| `Scheduler.PairsAvoidedMeaning` | scheduler.py:56-76 | avoiding every listed pair is the same as holding no two incompatible sections |
| `Scheduler.PairExclusionMeaning` | scheduler.py:66-76 | the pair exclusions mean no student's two slots hold clashing sections |
| `Scheduler.MakeConstraints` | scheduler.py:18-81 | a model satisfies every assertion added iff it is `Valid`: slots in `0..n`, every section held, no class clash, no section clash |
| `Scheduler.NoSectionTwice` | scheduler.py:66-76 | with well-formed sections, a valid assignment never gives one student the same section in both slots |
| `Scheduler.HeldValues` | scheduler.py:26-39 | `count` students hold at most `2 * count` distinct values |
| `Scheduler.HeldValuesMembership` | scheduler.py:34-39 | a value is among the held values iff some slot holds it |
| `Scheduler.IdRange` | scheduler.py:36 | the section ids `1..n` form a set of exactly `n` elements |
| `Scheduler.TooManySectionsUnsat` | scheduler.py:26-39 | with more than twice as many sections as students, no assignment is valid |
| `Scheduler.ClashingSectionsUnsat` | scheduler.py:34-76 | one student and two incompatible sections have no valid assignment |
| `Scheduler.OneStudentOverlapUnsat` | scheduler.py:91-95 | one student with no classes has no valid assignment for the identical sections `[9,10],[9,10]` |
| `Scheduler.BackToBackUnsat` | test_scheduler.py:24-28 | one student with no classes has no valid assignment for the touching sections `[9,10],[10,11]` |
| `Scheduler.SampleSatisfiable` | scheduler.py:4-10 | the three-student, four-section sample has a valid assignment |
| `OfficeHours.DayOf` | officehours.py:6-12 | the `day` accessor: the block's day, or the model's unspecified value for `none` |
| `OfficeHours.StartOf` | officehours.py:6-12 | the `starttime` accessor: the block's start, or the model's unspecified value for `none` |
| `OfficeHours.EndOf` | officehours.py:6-12 | the `endtime` accessor: the block's end, or the model's unspecified value for `none` |
| `OfficeHours.Overlap` | officehours.py:20-29 | `start1 <= end2 && start2 <= end1` always implies overlap; for well-formed blocks overlap is exactly that test, which covers all four cases |
| `OfficeHours.OverlapSymmetric` | officehours.py:27-29 | overlap does not depend on argument order |
| `OfficeHours.TouchingAndSelfOverlap` | officehours.py:27-28 | a well-formed block overlaps any block that starts where it ends, and overlaps itself |
| `OfficeHours.OverlapSameDay` | officehours.py:31-36 | blocks on different days never same-day overlap; for well-formed blocks it is equal days plus the single overlap test |
| `OfficeHours.ThursdayQuery` | officehours.py:38-45 | the query's five assertions: `tb` is not `none`, lasts more than 3 hours, starts after 8, is on Thursday, and does not same-day overlap Thursday 9-11 |
| `OfficeHours.ThursdayQueryAnswers` | officehours.py:38-45 | a block answers the query iff it is a Thursday `timeblock` starting at 12 or later and lasting at least 4 hours |
| `OfficeHours.ThursdayQuerySatisfiable` | officehours.py:38-45 | Thursday 12-16 answers the query |
| `Agreement.AsInterval` | officehours.py:6-12 | a block's hours as an interval, well-formed exactly when the block is |
| `Agreement.CompatIsNoOverlap` | officehours.py:20-29 | for well-formed blocks, scheduler compatibility is the negation of office-hours overlap |
| `Agreement.MalformedBlocksDisagree` | scheduler.py:12-16 | for the ill-formed block `[7,1]` against `[0,5]` the two tests disagree |

## Left out

- The z3 search: `Solver()`, `s.check()`, `s.model()`, `s.assertions()` and all printing. The solver is modelled as its assertion list, and sat/unsat as the existence of a `Valid` model.
- The sample run at the bottom of `scheduler.py` and its prints. Its data appear only in `Scheduler.SampleSatisfiable`, and its overlap example only in `Scheduler.OneStudentOverlapUnsat`.
- The `Section(room, interval)` records and dict-shaped students that `test_scheduler.py` uses. `scheduler.py` has neither.
- The back-to-back, same-room exception that `test_backtoback_same` expects. The code says it does not implement it (scheduler.py:53-55). In the model, touching well-formed sections always clash (`Scheduler.Compat`).
- The two empty preference tests, which assert nothing.
- Student keys: the dictionary becomes a sequence, and the z3 variable `"<key>_<i>"` becomes `Var(position, i)`. Keys are unique, so no two students share variables. The names play no part in the constraints.
- Float times become exact `real` values. scheduler.py only compares them, so no rounding can arise.
- Empty `And`/`Or`: with no students or no sections, z3 receives an `Or`/`And` of zero arguments. The model reads these as false and true. How z3py itself treats a call with no arguments depends on its version.
- Accessors of `none`: z3 leaves `day`, `starttime` and `endtime` of `none` unspecified, so a model picks their values. The `NoneFields` parameter carries those values instead of a precondition that excludes `none`.
