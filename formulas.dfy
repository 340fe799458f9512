/** The fragment of z3's integer formulas that the section scheduler builds:
    comparisons of one integer variable with a constant, joined by n-ary
    `And`/`Or` and `Not`. A solver's assertion list is read as the
    conjunction of its formulas, evaluated in a model that gives every
    variable an integer. */
module Formulas {

  /** The integer variable z3 names "<student>_<slot>": the slot `slot` of the
      student at position `student` of the student dictionary. */
  datatype Var = Var(student: nat, slot: nat)

  /** A z3 model restricted to integer variables. */
  type Model = Var -> int

  datatype Formula =
    | Ge(v: Var, bound: int)
    | Le(v: Var, bound: int)
    | Eq(v: Var, value: int)
    | Ne(v: Var, value: int)
    | And(conjuncts: seq<Formula>)
    | Or(disjuncts: seq<Formula>)
    | Not(negated: Formula)

  /** Truth of `f` in model `m`; an empty `And` is true and an empty `Or` is false, as in z3. */
  predicate Eval(f: Formula, m: Model)
  {
    match f
    case Ge(v, b) => m(v) >= b
    case Le(v, b) => m(v) <= b
    case Eq(v, c) => m(v) == c
    case Ne(v, c) => m(v) != c
    case And(fs) => forall g :: g in fs ==> Eval(g, m)
    case Or(fs) => exists g :: g in fs && Eval(g, m)
    case Not(g) => !Eval(g, m)
  }

  /** A model satisfies a solver's assertions when it makes their conjunction true. */
  predicate Satisfies(assertions: seq<Formula>, m: Model)
  {
    Eval(And(assertions), m)
  }

  lemma SatisfiesConcat(a: seq<Formula>, b: seq<Formula>, m: Model)
    ensures Satisfies(a + b, m) <==> Satisfies(a, m) && Satisfies(b, m)
  {
  }

  lemma SatisfiesSnoc(a: seq<Formula>, f: Formula, m: Model)
    ensures Satisfies(a + [f], m) <==> Satisfies(a, m) && Eval(f, m)
  {
    assert f in a + [f];
  }
}
