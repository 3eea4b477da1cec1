/** The two passes that give constrained parameters their values: the
    dependency pass (which parses each expression, records the known
    parameters it reads and seeds the symbol table) and depth-first
    resolution (which evaluates every dependency before the expression that
    reads it). These are the specification functions the Fitter's methods
    are proved against. */
module Resolution {
  import opened Basics
  import opened Expressions
  import opened Dependencies
  import opened Parameters

  /** The interpreter's parser: an expression, or None for a syntax error. */
  type Parser = string -> Option<Expr>

  /** Parameters and symbol table together. */
  datatype State = State(entries: Entries, sym: Symtab)

  // ---------------------------------------------------------------------
  // The dependency pass

  /** One constrained parameter after the dependency pass, its expression
      having parsed to `ast`. */
  function Assigned(p: Param, key: Name, known: set<Name>, ast: Expr): Param
  {
    p.(ast := Some(ast),
       deps := Some(DepsFrom(Names(ast), known)),
       name := if p.name.None? then Some(key) else p.name)
  }

  /** The parameters once the dependency pass has handled order[..n]. */
  function AssignUpTo(order: seq<Name>, e: Entries, known: set<Name>, parse: Parser, n: nat): (r: Result<Entries>)
    requires n <= |order|
    requires forall k :: k in order ==> k in e
    ensures r.Ok? ==> r.value.Keys == e.Keys
  {
    if n == 0 then Ok(e)
    else match AssignUpTo(order, e, known, parse, n - 1)
      case Err(err) => Err(err)
      case Ok(e1) =>
        var k := order[n - 1];
        var p := e[k];
        if p.expr.None? then Ok(e1)
        else match parse(p.expr.value)
          case None => Err(ParseError(k, p.expr.value))
          case Some(ast) => Ok(e1[k := Assigned(p, k, known, ast)])
  }

  /** The dependency pass fails at order[n]: every parameter before it went
      through and its turn ends the pass. */
  predicate FailsAt(order: seq<Name>, e: Entries, known: set<Name>, parse: Parser, n: nat)
    requires forall k :: k in order ==> k in e
  {
    n < |order| && AssignUpTo(order, e, known, parse, n).Ok? && AssignUpTo(order, e, known, parse, n + 1).Err?
  }

  /** The symbol table once the dependency pass has handled order[..n]. */
  function SymUpTo(order: seq<Name>, e: Entries, sym: Symtab, n: nat): Symtab
    requires n <= |order|
    requires forall k :: k in order ==> k in e
  {
    if n == 0 then sym
    else
      var s := SymUpTo(order, e, sym, n - 1);
      var k := order[n - 1];
      if e[k].expr.Some? then s[k := e[k].value] else s
  }

  /** In an order without repetitions, a key does not occur before its own position. */
  lemma NotBefore(order: seq<Name>, n: nat)
    requires n < |order| && NoDuplicates(order)
    ensures order[n] !in order[..n]
  {
    NoDuplicatesPrefix(order, n + 1);
    assert order[..n + 1][..n] == order[..n];
  }

  /** The dependency pass touches each constrained parameter of order[..n]
      once, by Assigned, and leaves every other parameter as it was. */
  lemma {:induction false} AssignUpToEffect(order: seq<Name>, e: Entries, known: set<Name>, parse: Parser, n: nat)
    requires n <= |order| && NoDuplicates(order)
    requires forall k :: k in order ==> k in e
    requires AssignUpTo(order, e, known, parse, n).Ok?
    ensures var e1 := AssignUpTo(order, e, known, parse, n).value;
      forall k :: k in e && k in order[..n] && e[k].expr.Some? ==>
        parse(e[k].expr.value).Some? && e1[k] == Assigned(e[k], k, known, parse(e[k].expr.value).value)
    ensures var e1 := AssignUpTo(order, e, known, parse, n).value;
      forall k :: k in e && !(k in order[..n] && e[k].expr.Some?) ==> e1[k] == e[k]
  {
    if n > 0 {
      AssignUpToEffect(order, e, known, parse, n - 1);
      var e0 := AssignUpTo(order, e, known, parse, n - 1).value;
      var e1 := AssignUpTo(order, e, known, parse, n).value;
      var k := order[n - 1];
      assert order[..n] == order[..n - 1] + [k];
      NotBefore(order, n - 1);
      assert e0[k] == e[k];
      forall j | j in e && j != k ensures e1[j] == e0[j] {
      }
    }
  }

  /** The parameter whose turn comes next is still as it was. */
  lemma AssignUpToAhead(order: seq<Name>, e: Entries, known: set<Name>, parse: Parser, n: nat)
    requires n < |order| && NoDuplicates(order)
    requires forall k :: k in order ==> k in e
    requires AssignUpTo(order, e, known, parse, n).Ok?
    ensures AssignUpTo(order, e, known, parse, n).value[order[n]] == e[order[n]]
  {
    AssignUpToEffect(order, e, known, parse, n);
    NotBefore(order, n);
  }

  /** One turn of the dependency pass, at order[n]: a free parameter is
      skipped, a constrained one whose expression does not parse ends the
      pass with that error, and any other is replaced by its Assigned form,
      its value being written to the symbol table. */
  lemma AssignStep(order: seq<Name>, e: Entries, known: set<Name>, parse: Parser, sym: Symtab, n: nat)
    requires n < |order| && NoDuplicates(order)
    requires forall k :: k in order ==> k in e
    requires AssignUpTo(order, e, known, parse, n).Ok?
    ensures var e1 := AssignUpTo(order, e, known, parse, n).value;
      var k := order[n];
      && e1[k] == e[k]
      && (e[k].expr.None? ==>
            AssignUpTo(order, e, known, parse, n + 1) == Ok(e1)
            && SymUpTo(order, e, sym, n + 1) == SymUpTo(order, e, sym, n))
      && (e[k].expr.Some? && parse(e[k].expr.value).None? ==>
            AssignUpTo(order, e, known, parse, |order|) == Err(ParseError(k, e[k].expr.value)))
      && (e[k].expr.Some? && parse(e[k].expr.value).Some? ==>
            AssignUpTo(order, e, known, parse, n + 1) == Ok(e1[k := Assigned(e[k], k, known, parse(e[k].expr.value).value)])
            && SymUpTo(order, e, sym, n + 1) == SymUpTo(order, e, sym, n)[k := e[k].value])
  {
    AssignUpToAhead(order, e, known, parse, n);
    var k := order[n];
    if e[k].expr.Some? && parse(e[k].expr.value).None? {
      AssignUpToStops(order, e, known, parse, n + 1, |order|);
    }
  }

  /** A failed dependency pass reports a constrained parameter of order[..n]
      whose expression does not parse. */
  lemma {:induction false} AssignUpToError(order: seq<Name>, e: Entries, known: set<Name>, parse: Parser, n: nat)
    requires n <= |order| && NoDuplicates(order)
    requires forall k :: k in order ==> k in e
    requires AssignUpTo(order, e, known, parse, n).Err?
    ensures var err := AssignUpTo(order, e, known, parse, n).error;
      && err.ParseError?
      && err.param in order[..n]
      && e[err.param].expr == Some(err.source)
      && parse(err.source).None?
  {
    var r1 := AssignUpTo(order, e, known, parse, n - 1);
    assert order[..n] == order[..n - 1] + [order[n - 1]];
    if r1.Err? {
      AssignUpToError(order, e, known, parse, n - 1);
    } else {
      AssignUpToEffect(order, e, known, parse, n - 1);
      NotBefore(order, n - 1);
    }
  }

  /** The dependency pass writes each constrained parameter's value under its
      key, and nothing else. */
  lemma {:induction false} SymUpToEffect(order: seq<Name>, e: Entries, sym: Symtab, n: nat)
    requires n <= |order|
    requires forall k :: k in order ==> k in e
    ensures var s := SymUpTo(order, e, sym, n);
      forall k ::
        if k in order[..n] && e[k].expr.Some? then k in s && s[k] == e[k].value
        else AgreeOn(sym, s, k)
  {
    if n > 0 {
      SymUpToEffect(order, e, sym, n - 1);
      assert order[..n] == order[..n - 1] + [order[n - 1]];
    }
  }

  /** Once the dependency pass has failed it stays failed with the same error. */
  lemma {:induction false} AssignUpToStops(order: seq<Name>, e: Entries, known: set<Name>, parse: Parser, i: nat, n: nat)
    requires i <= n <= |order|
    requires forall k :: k in order ==> k in e
    requires AssignUpTo(order, e, known, parse, i).Err?
    ensures AssignUpTo(order, e, known, parse, n) == AssignUpTo(order, e, known, parse, i)
    decreases n
  {
    if i < n {
      AssignUpToStops(order, e, known, parse, i, n - 1);
    }
  }

  // ---------------------------------------------------------------------
  // Depth-first resolution

  /** Nothing changed at `k`, in the parameters or in the symbol table. */
  ghost predicate Untouched(e0: Entries, s0: Symtab, e1: Entries, s1: Symtab, k: Name)
  {
    (k in e0 <==> k in e1) && (k in e0 ==> e0[k] == e1[k]) && AgreeOn(s0, s1, k)
  }

  /** `k` does not rank below `bound`. */
  ghost predicate Above(rank: map<Name, nat>, bound: nat, k: Name)
  {
    k !in rank || rank[k] >= bound
  }

  /** Resolving `name`: a free parameter's value is written to the symbol
      table; a constrained one is parsed if its parse is not cached yet, then
      handed to ResolveExpr. */
  ghost function Resolve(e: Entries, sym: Symtab, name: Name, parse: Parser, rank: map<Name, nat>): (r: Result<State>)
    requires Ranked(e, rank)
    decreases if name in rank then rank[name] else 0, 2, 0
    ensures r.Ok? ==> name in e && OnlyEvaluated(e, r.value.entries)
  {
    if name !in e then Err(KeyError(Some(name)))
    else
      var p := e[name];
      if p.expr.None? then Ok(State(e, sym[name := p.value]))
      else
        var parsed := if p.ast.Some? then p.ast else parse(p.expr.value);
        if parsed.None? then Err(ParseError(name, p.expr.value))
        else ResolveExpr(e, sym, name, parsed.value, parse, rank)
  }

  /** The dependency list of a parameter, empty when it was never computed. */
  function DepsOf(p: Param): seq<Name>
  {
    if p.deps.Some? then p.deps.value else []
  }

  /** Resolving a constrained parameter whose expression parsed to `ast`: the
      parse is cached on the parameter, its dependencies are resolved one
      after the other, and the expression is run against the resulting
      symbol table; the value is stored on the parameter and in the table. */
  ghost function ResolveExpr(e: Entries, sym: Symtab, name: Name, ast: Expr, parse: Parser, rank: map<Name, nat>): (r: Result<State>)
    requires Ranked(e, rank) && name in e && e[name].expr.Some?
    requires e[name].ast.Some? ==> e[name].ast == Some(ast)
    decreases rank[name], 1, 0
    ensures r.Ok? ==> OnlyEvaluated(e, r.value.entries)
  {
    var p1 := e[name].(ast := Some(ast));
    var e1 := e[name := p1];
    RankedKept(e, e1, rank);
    match ResolveAll(e1, sym, DepsOf(p1), parse, rank, rank[name])
    case Err(err) => Err(err)
    case Ok(st) =>
      match Eval(ast, st.sym)
      case Err(err) => Err(err)
      case Ok(v) =>
        OnlyEvaluatedTransitive(e, e1, st.entries);
        OnlyEvaluatedStore(e, st.entries, name, p1.(value := v));
        Ok(State(st.entries[name := p1.(value := v)], st.sym[name := v]))
  }

  /** Resolving each of `deps` in turn. */
  ghost function ResolveAll(e: Entries, sym: Symtab, deps: seq<Name>, parse: Parser, rank: map<Name, nat>, bound: nat): (r: Result<State>)
    requires Ranked(e, rank)
    requires forall d :: d in deps ==> d in rank && rank[d] < bound
    decreases bound, 0, |deps|
    ensures r.Ok? ==> OnlyEvaluated(e, r.value.entries)
  {
    if deps == [] then Ok(State(e, sym))
    else
      var last := deps[|deps| - 1];
      assert last in deps;
      match ResolveAll(e, sym, deps[..|deps| - 1], parse, rank, bound)
      case Err(err) => Err(err)
      case Ok(st) =>
        RankedKept(e, st.entries, rank);
        var r := Resolve(st.entries, st.sym, last, parse, rank);
        if r.Ok? then OnlyEvaluatedTransitive(e, st.entries, r.value.entries); r else r
  }

  /** Every entry of the symbol table that agreed with its parameter still
      does, and so does every parameter whose value was changed. */
  ghost predicate KeepsConsistent(e: Entries, sym: Symtab, st: State)
  {
    forall k :: k in e && k in st.entries && (Consistent(e, sym, k) || st.entries[k].value != e[k].value) ==>
      Consistent(st.entries, st.sym, k)
  }

  /** Nothing ranked at or above `bound`, outside `skip`, was touched. */
  ghost predicate Frame(e: Entries, sym: Symtab, st: State, rank: map<Name, nat>, bound: nat, skip: set<Name>)
  {
    forall k :: k !in skip && Above(rank, bound, k) ==> Untouched(e, sym, st.entries, st.sym, k)
  }

  ghost predicate AllConsistent(st: State, names: seq<Name>)
  {
    forall d :: d in names ==> Consistent(st.entries, st.sym, d)
  }

  /** What resolving `name` guarantees: the symbol table holds its value; it
      still holds every value it held, and every value that changed; only
      `name` and what ranks below it were touched; and every dependency of
      `name` is in the table. */
  lemma {:induction false} ResolveFacts(e: Entries, sym: Symtab, name: Name, parse: Parser, rank: map<Name, nat>)
    requires Ranked(e, rank)
    requires Resolve(e, sym, name, parse, rank).Ok?
    decreases if name in rank then rank[name] else 0, 2, 0
    ensures name in e && name in rank
    ensures var st := Resolve(e, sym, name, parse, rank).value;
      && Consistent(st.entries, st.sym, name)
      && KeepsConsistent(e, sym, st)
      && Frame(e, sym, st, rank, rank[name], {name})
      && (e[name].expr.Some? ==> AllConsistent(st, DepsOf(e[name])))
  {
    var p := e[name];
    if p.expr.Some? {
      var parsed := if p.ast.Some? then p.ast else parse(p.expr.value);
      ResolveExprFacts(e, sym, name, parsed.value, parse, rank);
    }
  }

  /** ResolveFacts for a constrained parameter. */
  lemma {:induction false} ResolveExprFacts(e: Entries, sym: Symtab, name: Name, ast: Expr, parse: Parser, rank: map<Name, nat>)
    requires Ranked(e, rank) && name in e && e[name].expr.Some?
    requires e[name].ast.Some? ==> e[name].ast == Some(ast)
    requires ResolveExpr(e, sym, name, ast, parse, rank).Ok?
    decreases rank[name], 1, 0
    ensures var st := ResolveExpr(e, sym, name, ast, parse, rank).value;
      && Consistent(st.entries, st.sym, name)
      && KeepsConsistent(e, sym, st)
      && Frame(e, sym, st, rank, rank[name], {name})
      && AllConsistent(st, DepsOf(e[name]))
  {
    var p1 := e[name].(ast := Some(ast));
    var e1 := e[name := p1];
    RankedKept(e, e1, rank);
    var deps := DepsOf(p1);
    ResolveAllFacts(e1, sym, deps, parse, rank, rank[name]);
    var st := ResolveAll(e1, sym, deps, parse, rank, rank[name]).value;
    var v := Eval(ast, st.sym).value;
    var fin := State(st.entries[name := p1.(value := v)], st.sym[name := v]);
    assert Above(rank, rank[name], name);
    assert Untouched(e1, sym, st.entries, st.sym, name);
    ResolveStepFacts(e, e1, sym, st, fin, name, rank, deps, p1, v);
  }

  /** The last step of resolving a constrained parameter: writing its value. */
  lemma ResolveStepFacts(e: Entries, e1: Entries, sym: Symtab, st: State, fin: State, name: Name, rank: map<Name, nat>,
                         deps: seq<Name>, p1: Param, v: Value)
    requires name in e && name in rank && e1 == e[name := p1] && p1.value == e[name].value
    requires forall d :: d in deps ==> d in rank && rank[d] < rank[name]
    requires st.entries.Keys == e.Keys
    requires KeepsConsistent(e1, sym, st) && AllConsistent(st, deps) && Frame(e1, sym, st, rank, rank[name], {})
    requires fin == State(st.entries[name := p1.(value := v)], st.sym[name := v])
    ensures Consistent(fin.entries, fin.sym, name)
    ensures KeepsConsistent(e, sym, fin)
    ensures Frame(e, sym, fin, rank, rank[name], {name})
    ensures AllConsistent(fin, deps)
  {
    forall k | k in e && k in fin.entries && (Consistent(e, sym, k) || fin.entries[k].value != e[k].value)
      ensures Consistent(fin.entries, fin.sym, k)
    {
      if k != name {
        assert Consistent(e1, sym, k) || st.entries[k].value != e1[k].value;
      }
    }
    forall d | d in deps ensures Consistent(fin.entries, fin.sym, d) {
      assert d != name;
    }
    forall k | k !in {name} && Above(rank, rank[name], k) ensures Untouched(e, sym, fin.entries, fin.sym, k) {
      assert Untouched(e1, sym, st.entries, st.sym, k);
    }
  }

  /** What resolving each of `deps` in turn guarantees: every one of them is in
      the symbol table, consistency is kept, and nothing ranked at or above
      `bound` was touched. */
  lemma {:induction false} ResolveAllFacts(e: Entries, sym: Symtab, deps: seq<Name>, parse: Parser, rank: map<Name, nat>, bound: nat)
    requires Ranked(e, rank)
    requires forall d :: d in deps ==> d in rank && rank[d] < bound
    requires ResolveAll(e, sym, deps, parse, rank, bound).Ok?
    decreases bound, 0, |deps|
    ensures var st := ResolveAll(e, sym, deps, parse, rank, bound).value;
      && KeepsConsistent(e, sym, st)
      && AllConsistent(st, deps)
      && Frame(e, sym, st, rank, bound, {})
  {
    if deps != [] {
      var last := deps[|deps| - 1];
      var init := deps[..|deps| - 1];
      assert last in deps;
      ResolveAllFacts(e, sym, init, parse, rank, bound);
      var st := ResolveAll(e, sym, init, parse, rank, bound).value;
      RankedKept(e, st.entries, rank);
      ResolveFacts(st.entries, st.sym, last, parse, rank);
      var fin := Resolve(st.entries, st.sym, last, parse, rank).value;
      ResolvedOneMore(e, sym, deps, rank, bound, st, fin);
    }
  }

  /** Resolving one more dependency after `init` keeps what ResolveAllFacts
      promises. */
  lemma ResolvedOneMore(e: Entries, sym: Symtab, deps: seq<Name>, rank: map<Name, nat>, bound: nat, st: State, fin: State)
    requires e.Keys == st.entries.Keys == fin.entries.Keys
    requires deps != [] && deps[|deps| - 1] in rank && rank[deps[|deps| - 1]] < bound
    requires KeepsConsistent(e, sym, st) && AllConsistent(st, deps[..|deps| - 1]) && Frame(e, sym, st, rank, bound, {})
    requires var last := deps[|deps| - 1];
      && Consistent(fin.entries, fin.sym, last) && KeepsConsistent(st.entries, st.sym, fin)
      && Frame(st.entries, st.sym, fin, rank, rank[last], {last})
    ensures KeepsConsistent(e, sym, fin) && AllConsistent(fin, deps) && Frame(e, sym, fin, rank, bound, {})
  {
    var last := deps[|deps| - 1];
    PassStepFacts(e, sym, st, fin);
    forall k | Above(rank, bound, k) ensures Untouched(e, sym, fin.entries, fin.sym, k) {
      assert k != last && Above(rank, rank[last], k);
    }
    forall d | d in deps ensures Consistent(fin.entries, fin.sym, d) {
      if d != last {
        assert d in deps[..|deps| - 1];
      }
    }
  }

  /** Resolving `deps` in turn fails as soon as one of them fails. */
  lemma {:induction false} ResolveAllStops(e: Entries, sym: Symtab, deps: seq<Name>, parse: Parser, rank: map<Name, nat>, bound: nat, n: nat)
    requires Ranked(e, rank)
    requires forall d :: d in deps ==> d in rank && rank[d] < bound
    requires n <= |deps|
    requires ResolveAll(e, sym, deps[..n], parse, rank, bound).Err?
    ensures ResolveAll(e, sym, deps, parse, rank, bound) == ResolveAll(e, sym, deps[..n], parse, rank, bound)
    decreases |deps| - n
  {
    if n < |deps| {
      assert deps[..n + 1][..n] == deps[..n];
      assert ResolveAll(e, sym, deps[..n + 1], parse, rank, bound) == ResolveAll(e, sym, deps[..n], parse, rank, bound);
      ResolveAllStops(e, sym, deps, parse, rank, bound, n + 1);
    } else {
      assert deps[..n] == deps;
    }
  }

  /** The symbol table `s1` with its entry for `k` put back as in `s0`. */
  function Restore(s1: Symtab, s0: Symtab, k: Name): Symtab
  {
    if k in s0 then s1[k := s0[k]] else s1 - {k}
  }

  /** A resolved constrained parameter holds the value of its expression, run
      after every dependency was resolved (ResolveFacts puts each of them in
      the symbol table): against the final table with its own entry as it was
      before, and against the final table itself when the expression does not
      read its own name. */
  lemma ResolveEvaluatesAfterDeps(e: Entries, sym: Symtab, name: Name, parse: Parser, rank: map<Name, nat>)
    requires Ranked(e, rank)
    requires Resolve(e, sym, name, parse, rank).Ok?
    requires name in e && e[name].expr.Some?
    ensures var st := Resolve(e, sym, name, parse, rank).value;
      var p := st.entries[name];
      && p.ast == (if e[name].ast.Some? then e[name].ast else parse(e[name].expr.value))
      && p.ast.Some?
      && Eval(p.ast.value, Restore(st.sym, sym, name)) == Ok(p.value)
      && (name !in Names(p.ast.value) ==> Eval(p.ast.value, st.sym) == Ok(p.value))
  {
    var p := e[name];
    var parsed := if p.ast.Some? then p.ast else parse(p.expr.value);
    ResolveExprEvaluates(e, sym, name, parsed.value, parse, rank);
  }

  /** ResolveEvaluatesAfterDeps once the expression is parsed. */
  lemma ResolveExprEvaluates(e: Entries, sym: Symtab, name: Name, ast: Expr, parse: Parser, rank: map<Name, nat>)
    requires Ranked(e, rank) && name in e && e[name].expr.Some?
    requires e[name].ast.Some? ==> e[name].ast == Some(ast)
    requires ResolveExpr(e, sym, name, ast, parse, rank).Ok?
    ensures var st := ResolveExpr(e, sym, name, ast, parse, rank).value;
      var p := st.entries[name];
      && p.ast == Some(ast)
      && Eval(ast, Restore(st.sym, sym, name)) == Ok(p.value)
      && (name !in Names(ast) ==> Eval(ast, st.sym) == Ok(p.value))
  {
    var p1 := e[name].(ast := Some(ast));
    var e1 := e[name := p1];
    RankedKept(e, e1, rank);
    var st := ResolveAll(e1, sym, DepsOf(p1), parse, rank, rank[name]).value;
    DepsLeaveOwnEntry(e1, sym, name, parse, rank);
    EvaluatedAndStored(ast, sym, st.sym, name, Eval(ast, st.sym).value);
  }

  /** Resolving the dependencies of `name` leaves its own table entry alone. */
  lemma DepsLeaveOwnEntry(e: Entries, sym: Symtab, name: Name, parse: Parser, rank: map<Name, nat>)
    requires Ranked(e, rank) && name in e && e[name].expr.Some?
    requires ResolveAll(e, sym, DepsOf(e[name]), parse, rank, rank[name]).Ok?
    ensures AgreeOn(sym, ResolveAll(e, sym, DepsOf(e[name]), parse, rank, rank[name]).value.sym, name)
  {
    var st := ResolveAll(e, sym, DepsOf(e[name]), parse, rank, rank[name]).value;
    ResolveAllFacts(e, sym, DepsOf(e[name]), parse, rank, rank[name]);
    assert Above(rank, rank[name], name);
    assert Untouched(e, sym, st.entries, st.sym, name);
  }

  /** The value `v` of `ast` against `s`, stored under `name`, is the value of
      `ast` against the table with that entry put back as in `s0`, and against
      the table itself when `ast` does not name `name`. */
  lemma EvaluatedAndStored(ast: Expr, s0: Symtab, s: Symtab, name: Name, v: Value)
    requires AgreeOn(s0, s, name) && Eval(ast, s) == Ok(v)
    ensures Eval(ast, Restore(s[name := v], s0, name)) == Ok(v)
    ensures name !in Names(ast) ==> Eval(ast, s[name := v]) == Ok(v)
  {
    RestoreUndoes(s, s0, name, v);
    if name !in Names(ast) {
      EvalReadsOnlyNames(ast, s, s[name := v]);
    }
  }

  /** Writing `name` and then putting back its old entry gives the table back. */
  lemma RestoreUndoes(s: Symtab, s0: Symtab, name: Name, v: Value)
    requires AgreeOn(s0, s, name)
    ensures Restore(s[name := v], s0, name) == s
  {
    if name in s0 {
      assert s[name := v][name := s0[name]] == s;
    } else {
      assert s[name := v] - {name} == s;
    }
  }

  /** The resolution loop of guess(): every parameter of order[..n] that is
      still unset when its turn comes is resolved by its own name. */
  ghost function ResolvePassUpTo(order: seq<Name>, e: Entries, sym: Symtab, parse: Parser, rank: map<Name, nat>, n: nat): (r: Result<State>)
    requires n <= |order|
    requires forall k :: k in order ==> k in e
    requires Ranked(e, rank)
    ensures r.Ok? ==> OnlyEvaluated(e, r.value.entries)
  {
    if n == 0 then Ok(State(e, sym))
    else match ResolvePassUpTo(order, e, sym, parse, rank, n - 1)
      case Err(err) => Err(err)
      case Ok(st) =>
        var p := st.entries[order[n - 1]];
        if p.value.Some? then Ok(st)
        else if p.name.None? then Err(KeyError(None))
        else
          RankedKept(e, st.entries, rank);
          var r := Resolve(st.entries, st.sym, p.name.value, parse, rank);
          if r.Ok? then OnlyEvaluatedTransitive(e, st.entries, r.value.entries); r else r
  }

  /** A failed resolution loop stays failed. */
  lemma {:induction false} ResolvePassStops(order: seq<Name>, e: Entries, sym: Symtab, parse: Parser, rank: map<Name, nat>, i: nat, n: nat)
    requires i <= n <= |order|
    requires forall k :: k in order ==> k in e
    requires Ranked(e, rank)
    requires ResolvePassUpTo(order, e, sym, parse, rank, i).Err?
    ensures ResolvePassUpTo(order, e, sym, parse, rank, n) == ResolvePassUpTo(order, e, sym, parse, rank, i)
    decreases n
  {
    if i < n {
      ResolvePassStops(order, e, sym, parse, rank, i, n - 1);
    }
  }

  /** After the resolution loop, every parameter of order[..n] that was unset
      before it and is named by its own key holds in the symbol table exactly
      its value, and so does every parameter that held its value before. */
  lemma {:induction false} ResolvePassSettles(order: seq<Name>, e: Entries, sym: Symtab, parse: Parser, rank: map<Name, nat>, n: nat)
    requires n <= |order|
    requires forall k :: k in order ==> k in e
    requires Ranked(e, rank)
    requires ResolvePassUpTo(order, e, sym, parse, rank, n).Ok?
    ensures var st := ResolvePassUpTo(order, e, sym, parse, rank, n).value;
      && KeepsConsistent(e, sym, st)
      && forall k :: k in order[..n] && e[k].value.None? && e[k].name == Some(k) ==> Consistent(st.entries, st.sym, k)
  {
    if n > 0 {
      PassPrefixOk(order, e, sym, parse, rank, n);
      ResolvePassSettles(order, e, sym, parse, rank, n - 1);
      PassTurnSettles(order, e, sym, parse, rank, n);
    }
  }

  /** A resolution loop that went through went through every turn before. */
  lemma PassPrefixOk(order: seq<Name>, e: Entries, sym: Symtab, parse: Parser, rank: map<Name, nat>, n: nat)
    requires 0 < n <= |order|
    requires forall k :: k in order ==> k in e
    requires Ranked(e, rank)
    requires ResolvePassUpTo(order, e, sym, parse, rank, n).Ok?
    ensures ResolvePassUpTo(order, e, sym, parse, rank, n - 1).Ok?
  {
  }

  /** The inductive step of ResolvePassSettles. */
  lemma PassTurnSettles(order: seq<Name>, e: Entries, sym: Symtab, parse: Parser, rank: map<Name, nat>, n: nat)
    requires 0 < n <= |order|
    requires forall k :: k in order ==> k in e
    requires Ranked(e, rank)
    requires ResolvePassUpTo(order, e, sym, parse, rank, n - 1).Ok?
    requires ResolvePassUpTo(order, e, sym, parse, rank, n).Ok?
    requires var st := ResolvePassUpTo(order, e, sym, parse, rank, n - 1).value;
      && KeepsConsistent(e, sym, st)
      && forall k :: k in order[..n - 1] && e[k].value.None? && e[k].name == Some(k) ==> Consistent(st.entries, st.sym, k)
    ensures var st := ResolvePassUpTo(order, e, sym, parse, rank, n).value;
      && KeepsConsistent(e, sym, st)
      && forall k :: k in order[..n] && e[k].value.None? && e[k].name == Some(k) ==> Consistent(st.entries, st.sym, k)
  {
    var st := ResolvePassUpTo(order, e, sym, parse, rank, n - 1).value;
    var fin := ResolvePassUpTo(order, e, sym, parse, rank, n).value;
    PassTurnFacts(order, e, sym, parse, rank, n, st, fin);
    SettledAfterTurn(order, n, e, sym, st, fin);
  }

  /** What the n-th turn of the resolution loop guarantees about the state
      `st` before it and `fin` after it. */
  lemma PassTurnFacts(order: seq<Name>, e: Entries, sym: Symtab, parse: Parser, rank: map<Name, nat>, n: nat, st: State, fin: State)
    requires 0 < n <= |order|
    requires forall k :: k in order ==> k in e
    requires Ranked(e, rank)
    requires ResolvePassUpTo(order, e, sym, parse, rank, n - 1) == Ok(st)
    requires ResolvePassUpTo(order, e, sym, parse, rank, n) == Ok(fin)
    ensures OnlyEvaluated(e, st.entries) && OnlyEvaluated(st.entries, fin.entries)
    ensures KeepsConsistent(st.entries, st.sym, fin)
    ensures var k := order[n - 1];
      && SameButEvaluated(e[k], st.entries[k])
      && (st.entries[k].value.None? && st.entries[k].name == Some(k) ==> Consistent(fin.entries, fin.sym, k))
  {
    var k := order[n - 1];
    var p := st.entries[k];
    if p.value.None? {
      RankedKept(e, st.entries, rank);
      ResolveFacts(st.entries, st.sym, p.name.value, parse, rank);
    }
  }

  /** One more turn of the resolution loop keeps the loop's guarantees. */
  lemma SettledAfterTurn(order: seq<Name>, n: nat, e: Entries, sym: Symtab, st: State, fin: State)
    requires 0 < n <= |order|
    requires forall k :: k in order ==> k in e
    requires OnlyEvaluated(e, st.entries) && OnlyEvaluated(st.entries, fin.entries)
    requires KeepsConsistent(e, sym, st) && KeepsConsistent(st.entries, st.sym, fin)
    requires forall k :: k in order[..n - 1] && e[k].value.None? && e[k].name == Some(k) ==> Consistent(st.entries, st.sym, k)
    requires var k := order[n - 1];
      && SameButEvaluated(e[k], st.entries[k])
      && (st.entries[k].value.None? && st.entries[k].name == Some(k) ==> Consistent(fin.entries, fin.sym, k))
    ensures KeepsConsistent(e, sym, fin)
    ensures forall k :: k in order[..n] && e[k].value.None? && e[k].name == Some(k) ==> Consistent(fin.entries, fin.sym, k)
  {
    PassStepFacts(e, sym, st, fin);
    var k := order[n - 1];
    assert order[..n] == order[..n - 1] + [k];
    forall j | j in order[..n] && e[j].value.None? && e[j].name == Some(j)
      ensures Consistent(fin.entries, fin.sym, j)
    {
      if j != k {
        assert j in order[..n - 1];
        assert Consistent(st.entries, st.sym, j);
      }
    }
  }

  /** Consistency carries over two steps. */
  lemma PassStepFacts(e: Entries, sym: Symtab, st: State, fin: State)
    requires e.Keys == st.entries.Keys == fin.entries.Keys
    requires KeepsConsistent(e, sym, st) && KeepsConsistent(st.entries, st.sym, fin)
    ensures KeepsConsistent(e, sym, fin)
  {
    forall j | j in e && j in fin.entries && (Consistent(e, sym, j) || fin.entries[j].value != e[j].value)
      ensures Consistent(fin.entries, fin.sym, j)
    {
      assert Consistent(st.entries, st.sym, j) || fin.entries[j].value != st.entries[j].value;
    }
  }

  /** The two passes of guess() together. Free parameters come out exactly as
      they went in. Every constrained one keeps the parse of its expression, its
      dependencies listed as DepsFrom lists them (each at most once, each a
      known parameter) and its name defaulted to its key. Every parameter that
      was unset and answers to its own key ends up in the symbol table. */
  lemma PassesSettle(order: seq<Name>, e: Entries, known: set<Name>, sym: Symtab, parse: Parser, rank: map<Name, nat>)
    requires NoDuplicates(order) && forall k :: k in order ==> k in e
    requires AssignUpTo(order, e, known, parse, |order|).Ok?
    requires Ranked(AssignUpTo(order, e, known, parse, |order|).value, rank)
    requires ResolvePassUpTo(order, AssignUpTo(order, e, known, parse, |order|).value,
                             SymUpTo(order, e, sym, |order|), parse, rank, |order|).Ok?
    ensures var st := ResolvePassUpTo(order, AssignUpTo(order, e, known, parse, |order|).value,
                                      SymUpTo(order, e, sym, |order|), parse, rank, |order|).value;
      forall k :: k in order && e[k].expr.None? ==> st.entries[k] == e[k]
    ensures var st := ResolvePassUpTo(order, AssignUpTo(order, e, known, parse, |order|).value,
                                      SymUpTo(order, e, sym, |order|), parse, rank, |order|).value;
      forall k :: k in order && e[k].expr.Some? ==>
        && parse(e[k].expr.value).Some?
        && st.entries[k].ast == parse(e[k].expr.value)
        && st.entries[k].deps == Some(DepsFrom(Names(parse(e[k].expr.value).value), known))
        && st.entries[k].name == (if e[k].name.None? then Some(k) else e[k].name)
        && NoDuplicates(st.entries[k].deps.value)
        && forall d :: d in st.entries[k].deps.value ==> d in known
    ensures var st := ResolvePassUpTo(order, AssignUpTo(order, e, known, parse, |order|).value,
                                      SymUpTo(order, e, sym, |order|), parse, rank, |order|).value;
      forall k :: k in order && e[k].value.None? && (e[k].name == Some(k) || (e[k].expr.Some? && e[k].name.None?)) ==>
        Consistent(st.entries, st.sym, k)
  {
    var a := AssignUpTo(order, e, known, parse, |order|).value;
    var sym1 := SymUpTo(order, e, sym, |order|);
    var st := ResolvePassUpTo(order, a, sym1, parse, rank, |order|).value;
    AssignUpToEffect(order, e, known, parse, |order|);
    ResolvePassSettles(order, a, sym1, parse, rank, |order|);
    WholePrefix(order);
    forall k | k in order && e[k].expr.Some?
      ensures && parse(e[k].expr.value).Some?
              && st.entries[k].ast == parse(e[k].expr.value)
              && st.entries[k].deps == Some(DepsFrom(Names(parse(e[k].expr.value).value), known))
              && NoDuplicates(st.entries[k].deps.value)
              && forall d :: d in st.entries[k].deps.value ==> d in known
    {
      assert SameButEvaluated(a[k], st.entries[k]);
      var names := Names(parse(e[k].expr.value).value);
      DepsFromMembers(names, known);
      DepsFromNoDuplicates(names, known);
    }
    forall k | k in order ensures SameButEvaluated(a[k], st.entries[k]) && a[k].value == e[k].value {
    }
  }
}
