/** Parameters and parameter sets as the fitter sees them. */
module Parameters {
  import opened Basics
  import opened Expressions

  /** One parameter. A parameter with an `expr` is constrained: its value is
      derived from other parameters; `ast` caches the parsed expression and
      `deps` the names of the parameters it reads. Bounds are left out: only
      the form widgets read them. */
  datatype Param = Param(
    name: Option<Name>,
    value: Value,
    expr: Option<string>,
    ast: Option<Expr>,
    deps: Option<seq<Name>>)

  /** A name-to-parameter table. */
  type Entries = map<Name, Param>

  /** An ordered dictionary of parameters: `order` lists every key once, in
      insertion order. */
  datatype ParamTable = ParamTable(order: seq<Name>, entries: Entries)

  predicate WellFormed(t: ParamTable)
  {
    NoDuplicates(t.order) && (forall k :: k in t.order ==> k in t.entries) && forall k :: k in t.entries ==> k in t.order
  }

  type ParamSet = t: ParamTable | WellFormed(t) witness ParamTable([], map[])

  /** `e1` differs from `e0` at most in the value of constrained parameters
      and in the parses cached on them; free parameters are untouched. */
  ghost predicate OnlyEvaluated(e0: Entries, e1: Entries)
  {
    && e0.Keys == e1.Keys
    && forall k :: k in e0 ==> SameButEvaluated(e0[k], e1[k])
  }

  /** `q` is `p` with possibly another value and a parse cached where none
      was; a free parameter is not changed at all. */
  ghost predicate SameButEvaluated(p: Param, q: Param)
  {
    && q.name == p.name && q.expr == p.expr && q.deps == p.deps
    && (p.ast.Some? ==> q.ast == p.ast)
    && (p.expr.None? ==> q == p)
  }

  lemma OnlyEvaluatedTransitive(e0: Entries, e1: Entries, e2: Entries)
    requires OnlyEvaluated(e0, e1) && OnlyEvaluated(e1, e2)
    ensures OnlyEvaluated(e0, e2)
  {
    forall k | k in e0 ensures SameButEvaluated(e0[k], e2[k]) {
      assert SameButEvaluated(e1[k], e2[k]);
    }
  }

  /** Storing an evaluated form of one parameter keeps `e1` an evaluation of `e0`. */
  lemma OnlyEvaluatedStore(e0: Entries, e1: Entries, k: Name, q: Param)
    requires OnlyEvaluated(e0, e1) && k in e0 && SameButEvaluated(e0[k], q)
    ensures OnlyEvaluated(e0, e1[k := q])
  {
  }

  /** The symbol table holds the parameter's own value under `k`. */
  ghost predicate Consistent(e: Entries, sym: Symtab, k: Name)
  {
    k in e && k in sym && sym[k] == e[k].value
  }

  /** Every dependency of a constrained parameter ranks strictly below it:
      following `deps` can never come back to where it started. */
  ghost predicate Ranked(e: Entries, rank: map<Name, nat>)
  {
    forall k :: k in e ==> k in rank && DepsBelow(e[k], rank, rank[k])
  }

  ghost predicate DepsBelow(p: Param, rank: map<Name, nat>, bound: nat)
  {
    p.expr.Some? && p.deps.Some? ==>
      forall d :: d in p.deps.value ==> d in rank && rank[d] < bound
  }

  /** The dependency graph of `e` has no cycle. */
  ghost predicate Acyclic(e: Entries)
  {
    exists rank :: Ranked(e, rank)
  }

  /** A ranking witnessing that `e` is acyclic. */
  ghost function SomeRank(e: Entries): (rank: map<Name, nat>)
    requires Acyclic(e)
    ensures Ranked(e, rank)
  {
    var rank :| Ranked(e, rank); rank
  }

  /** Evaluating parameters keeps a ranking valid. */
  lemma RankedKept(e0: Entries, e1: Entries, rank: map<Name, nat>)
    requires Ranked(e0, rank) && OnlyEvaluated(e0, e1)
    ensures Ranked(e1, rank)
  {
    forall k | k in e1 ensures k in rank && DepsBelow(e1[k], rank, rank[k]) {
      assert k in e0;
    }
  }
}
