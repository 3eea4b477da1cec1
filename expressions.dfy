/** The expression language of constrained parameters, reduced to what the
    fitter relies on: the names an expression reads, in the order a
    NameFinder visit meets them, and its evaluation against a symbol table. */
module Expressions {
  import opened Basics

  /** A parameter value; None means "not determined yet". */
  type Value = Option<int>

  /** The interpreter's symbol table: the last value written under each name. */
  type Symtab = map<Name, Value>

  /** A parsed expression. */
  datatype Expr =
    | Const(c: int)
    | Var(id: Name)
    | Add(left: Expr, right: Expr)
    | Mul(left: Expr, right: Expr)

  /** Every name node of `e`, left to right, repetitions kept. */
  function Names(e: Expr): seq<Name>
  {
    match e
    case Const(_) => []
    case Var(x) => [x]
    case Add(l, r) => Names(l) + Names(r)
    case Mul(l, r) => Names(l) + Names(r)
  }

  /** Running a parsed expression. A name that is not in the table raises
      NameError; arithmetic on None raises TypeError after both operands were
      evaluated, left first; a bare name yields whatever the table holds, None
      included. */
  function Eval(e: Expr, sym: Symtab): (r: Result<Value>)
    ensures r.Err? && r.error.NameError? ==> r.error.id in Names(e) && r.error.id !in sym
    ensures r.Err? ==> r.error.NameError? || r.error == TypeError
    ensures r.Ok? && !e.Var? ==> r.value.Some?
  {
    match e
    case Const(c) => Ok(Some(c))
    case Var(x) => if x in sym then Ok(sym[x]) else Err(NameError(x))
    case Add(l, r) => Arith(Eval(l, sym), Eval(r, sym), true)
    case Mul(l, r) => Arith(Eval(l, sym), Eval(r, sym), false)
  }

  /** Combines two evaluated operands by `+` (isAdd) or `*`. */
  function Arith(a: Result<Value>, b: Result<Value>, isAdd: bool): Result<Value>
  {
    if a.Err? then a
    else if b.Err? then b
    else if a.value.None? || b.value.None? then Err(TypeError)
    else if isAdd then Ok(Some(a.value.value + b.value.value))
    else Ok(Some(a.value.value * b.value.value))
  }

  /** Two tables agree on `x`: both lack it or both map it to the same value. */
  predicate AgreeOn(s1: Symtab, s2: Symtab, x: Name)
  {
    (x in s1 <==> x in s2) && (x in s1 ==> s1[x] == s2[x])
  }

  /** Evaluation reads the symbol table only at the names the expression
      contains: tables that agree on those names give the same result. */
  lemma {:induction false} EvalReadsOnlyNames(e: Expr, s1: Symtab, s2: Symtab)
    requires forall x :: x in Names(e) ==> AgreeOn(s1, s2, x)
    ensures Eval(e, s1) == Eval(e, s2)
  {
    match e
    case Const(_) =>
    case Var(x) =>
      assert x in Names(e);
    case Add(l, r) =>
      EvalReadsOnlyNames(l, s1, s2);
      EvalReadsOnlyNames(r, s1, s2);
    case Mul(l, r) =>
      EvalReadsOnlyNames(l, s1, s2);
      EvalReadsOnlyNames(r, s1, s2);
  }

  /** When every name the expression reads holds a number, evaluation raises
      nothing and yields a number. */
  lemma {:induction false} EvalDefinedWhenBound(e: Expr, sym: Symtab)
    requires forall x :: x in Names(e) ==> x in sym && sym[x].Some?
    ensures Eval(e, sym).Ok? && Eval(e, sym).value.Some?
  {
    match e
    case Const(_) =>
    case Var(x) =>
      assert x in Names(e);
    case Add(l, r) =>
      EvalDefinedWhenBound(l, sym);
      EvalDefinedWhenBound(r, sym);
    case Mul(l, r) =>
      EvalDefinedWhenBound(l, sym);
      EvalDefinedWhenBound(r, sym);
  }
}
