/** The interactive fitting session: a Fitter holds data, the keyword
    arguments it was created with (the independent variables), a model, the
    parameters of the latest guess or fit, the latest fit result and the
    symbol table that constrained parameters are evaluated in. */
module Fitting {
  import opened Basics
  import opened Expressions
  import opened Dependencies
  import opened Parameters
  import opened Resolution

  /** Data samples. */
  type Data = seq<int>

  /** A keyword argument: a parameter, or a data array such as x=x. */
  datatype Arg = OfParam(param: Param) | OfData(values: Data)

  /** What the model library's guess() can do: return parameters, say it
      cannot guess (NotImplementedError), or raise. */
  datatype Reply = Returned(params: ParamSet) | NotImplemented | Raised(error: Error)

  /** The result of a fit: the best-fit parameters and the initial ones. */
  datatype FitResult = FitResult(params: ParamSet, initParams: ParamSet)

  /** A model, as far as the Fitter uses it: its independent variables, the
      parameters make_params() returns, and its own guess and fit, which are
      numerical code outside this model. */
  datatype Model = Model(
    independentVars: seq<Name>,
    defaultParams: ParamSet,
    guess: (Data, map<Name, Arg>) -> Reply,
    fit: (Data, seq<Arg>, map<Name, Arg>) -> Result<FitResult>)

  /** What may be assigned to `model`: a model, or a callable (a model class)
      that builds one. */
  datatype ModelChoice = Instance(m: Model) | Factory(make: () -> Model)

  function Instantiate(c: ModelChoice): Model
  {
    match c
    case Instance(m) => m
    case Factory(make) => make()
  }

  // ---------------------------------------------------------------------
  // guess(): calling the model

  /** How the call to the model's guess() ends. */
  datatype GuessStep = Guessed(params: ParamSet) | Disabled | Failed(error: Error)

  /** The keyword arguments guess() hands to the model: none for a model
      without independent variables, and for a model with one, that variable
      as the session's keyword arguments give it. */
  function GuessArgs(m: Model, kwargs: map<Name, Arg>): Result<map<Name, Arg>>
  {
    if |m.independentVars| == 0 then Ok(map[])
    else
      var key := m.independentVars[0];
      if key in kwargs then Ok(map[key := kwargs[key]]) else Err(KeyError(Some(key)))
  }

  /** The call to the model's guess(). Guessing is disabled when the model
      cannot guess, and also when it has more than one independent variable,
      which guess() has no way to pass. */
  function GuessBranch(m: Model, data: Data, kwargs: map<Name, Arg>): (g: GuessStep)
    ensures |m.independentVars| >= 2 ==> g == Disabled
    ensures |m.independentVars| == 1 && m.independentVars[0] !in kwargs ==>
      g == Failed(KeyError(Some(m.independentVars[0])))
    ensures g.Guessed? ==>
      && |m.independentVars| <= 1
      && GuessArgs(m, kwargs).Ok?
      && m.guess(data, GuessArgs(m, kwargs).value) == Returned(g.params)
    ensures g.Disabled? ==> |m.independentVars| >= 2 || m.guess(data, GuessArgs(m, kwargs).value).NotImplemented?
    ensures |m.independentVars| == 0 ==> GuessArgs(m, kwargs) == Ok(map[])
    ensures |m.independentVars| <= 1 && GuessArgs(m, kwargs).Ok? ==>
      g == match m.guess(data, GuessArgs(m, kwargs).value)
           case Returned(ps) => Guessed(ps)
           case NotImplemented => Disabled
           case Raised(err) => Failed(err)
  {
    if |m.independentVars| >= 2 then Disabled
    else match GuessArgs(m, kwargs)
      case Err(err) => Failed(err)
      case Ok(args) =>
        match m.guess(data, args)
        case Returned(ps) => Guessed(ps)
        case NotImplemented => Disabled
        case Raised(err) => Failed(err)
  }

  /** The call as it is written: `flag` is what the guess button's disabled
      flag is set to (None when an exception escapes first) and `result` is
      the parameters the rest of guess() goes on with. With two or more
      independent variables no branch binds them, and when the model cannot
      guess the handler does not bind them either, so the next statement that
      reads them fails. */
  datatype WrittenGuess = WrittenGuess(flag: Option<bool>, result: Result<ParamSet>)

  function GuessBranchAsWritten(m: Model, data: Data, kwargs: map<Name, Arg>): WrittenGuess
  {
    if |m.independentVars| >= 2 then WrittenGuess(Some(false), Err(UnboundGuess))
    else match GuessArgs(m, kwargs)
      case Err(err) => WrittenGuess(None, Err(err))
      case Ok(args) =>
        match m.guess(data, args)
        case Returned(ps) => WrittenGuess(Some(false), Ok(ps))
        case NotImplemented => WrittenGuess(Some(true), Err(UnboundGuess))
        case Raised(err) => WrittenGuess(None, Err(err))
  }

  /** As written, guess() fails on every model with two or more independent
      variables, without disabling guessing. */
  lemma GuessUnboundForSeveralVariables(m: Model, data: Data, kwargs: map<Name, Arg>)
    requires |m.independentVars| >= 2
    ensures GuessBranchAsWritten(m, data, kwargs) == WrittenGuess(Some(false), Err(UnboundGuess))
    ensures GuessBranch(m, data, kwargs) == Disabled
  {
  }

  /** The corrected call differs from the written one exactly where the
      written one reads an unbound variable; there it disables guessing. */
  lemma GuessBranchCorrects(m: Model, data: Data, kwargs: map<Name, Arg>)
    ensures var w := GuessBranchAsWritten(m, data, kwargs);
      match GuessBranch(m, data, kwargs)
      case Guessed(ps) => w == WrittenGuess(Some(false), Ok(ps))
      case Failed(err) => w == WrittenGuess(None, Err(err))
      case Disabled => w.result == Err(UnboundGuess) && w.flag.Some?
  {
  }

  // ---------------------------------------------------------------------
  // The effect of guess()

  /** The part of a Fitter's state guess() reads and writes. */
  datatype Session = Session(disabled: bool, params: ParamSet, sym: Symtab)

  /** guess() can run to completion: if the model guesses parameters, once
      their dependencies are listed against the `known` parameters they have
      no dependency cycle. */
  ghost predicate Resolvable(step: GuessStep, known: set<Name>, parse: Parser)
  {
    step.Guessed? ==> PassesResolvable(step.params, known, parse)
  }

  ghost predicate PassesResolvable(ps: ParamSet, known: set<Name>, parse: Parser)
  {
    var a := AssignUpTo(ps.order, ps.entries, known, parse, |ps.order|);
    a.Ok? ==> Acyclic(a.value)
  }

  /** What guess() does to the session once the model has answered with
      `step`. A failing model call changes nothing. Disabled guessing sets the
      flag and keeps the parameters. A guess clears the flag and runs the two
      passes of PassesDone. */
  ghost predicate GuessDone(step: GuessStep, parse: Parser, before: Session, after: Session, outcome: Outcome)
    requires Resolvable(step, before.params.entries.Keys, parse)
  {
    match step
    case Failed(err) => outcome == Fail(err) && after == before
    case Disabled => outcome == Pass && after == before.(disabled := true)
    case Guessed(ps) => !after.disabled && PassesDone(ps, parse, before, after, outcome)
  }

  /** The dependency pass over the guessed parameters `ps` (the parameters
      current before are the known ones it lists dependencies against), then
      the resolution loop; the result becomes the current parameters. When
      either pass fails the current parameters are kept; a failed dependency
      pass leaves in the symbol table the writes of the parameters before the
      one whose expression does not parse. */
  ghost predicate PassesDone(ps: ParamSet, parse: Parser, before: Session, after: Session, outcome: Outcome)
    requires PassesResolvable(ps, before.params.entries.Keys, parse)
  {
    match AssignUpTo(ps.order, ps.entries, before.params.entries.Keys, parse, |ps.order|)
    case Err(err) =>
      && outcome == Fail(err) && after.params == before.params
      && exists n: nat :: FailsAt(ps.order, ps.entries, before.params.entries.Keys, parse, n)
                          && after.sym == SymUpTo(ps.order, ps.entries, before.sym, n)
    case Ok(a) =>
      var sym1 := SymUpTo(ps.order, ps.entries, before.sym, |ps.order|);
      match ResolvePassUpTo(ps.order, a, sym1, parse, SomeRank(a), |ps.order|)
      case Err(err) => outcome == Fail(err) && after.params == before.params
      case Ok(st) => outcome == Pass && after.params == ParamTable(ps.order, st.entries) && after.sym == st.sym
  }

  /** After a guess that went through, the current parameters are the
      model's guess in its own order: free parameters exactly as guessed,
      constrained ones with their dependencies listed once each, in the order
      their expressions first name them, among the parameters known before,
      and with their names defaulted to their keys; every unset parameter
      that answers to its own key holds its value in the symbol table. */
  lemma GuessSettles(m: Model, data: Data, kwargs: map<Name, Arg>, parse: Parser,
                     before: Session, after: Session, outcome: Outcome)
    requires GuessBranch(m, data, kwargs).Guessed?
    requires Resolvable(GuessBranch(m, data, kwargs), before.params.entries.Keys, parse)
    requires GuessDone(GuessBranch(m, data, kwargs), parse, before, after, outcome)
    requires outcome.Pass?
    ensures var ps := GuessBranch(m, data, kwargs).params;
      var known := before.params.entries.Keys;
      && after.params.order == ps.order
      && !after.disabled
      && (forall k :: k in ps.order && ps.entries[k].expr.None? ==> after.params.entries[k] == ps.entries[k])
      && (forall k :: k in ps.order && ps.entries[k].expr.Some? ==>
            && parse(ps.entries[k].expr.value).Some?
            && after.params.entries[k].ast == parse(ps.entries[k].expr.value)
            && after.params.entries[k].deps == Some(DepsFrom(Names(parse(ps.entries[k].expr.value).value), known))
            && after.params.entries[k].name == (if ps.entries[k].name.None? then Some(k) else ps.entries[k].name)
            && NoDuplicates(after.params.entries[k].deps.value)
            && forall d :: d in after.params.entries[k].deps.value ==> d in known)
      && (forall k ::
            (k in ps.order && ps.entries[k].value.None? &&
             (ps.entries[k].name == Some(k) || (ps.entries[k].expr.Some? && ps.entries[k].name.None?))) ==>
            Consistent(after.params.entries, after.sym, k))
  {
    var ps := GuessBranch(m, data, kwargs).params;
    var known := before.params.entries.Keys;
    var a := AssignUpTo(ps.order, ps.entries, known, parse, |ps.order|).value;
    PassesSettle(ps.order, ps.entries, known, before.sym, parse, SomeRank(a));
  }

  // ---------------------------------------------------------------------
  // fit()

  /** The parameters as keyword arguments. */
  function AsArgs(ps: ParamSet): map<Name, Arg>
  {
    map k | k in ps.entries :: OfParam(ps.entries[k])
  }

  /** The keyword arguments fit() passes to the model: the current
      parameters, overridden by the session's keyword arguments, overridden
      in turn by the call's own. */
  function FitArgs(current: ParamSet, session: map<Name, Arg>, call: map<Name, Arg>): (m: map<Name, Arg>)
    ensures m.Keys == current.entries.Keys + session.Keys + call.Keys
    ensures forall k :: k in call ==> m[k] == call[k]
    ensures forall k :: k in session && k !in call ==> m[k] == session[k]
    ensures forall k :: k in current.entries && k !in session && k !in call ==> m[k] == OfParam(current.entries[k])
  {
    AsArgs(current) + session + call
  }

  /** The exception plot() raises before it draws anything: a model with one
      independent variable needs it among the session's keyword arguments,
      and one with more cannot be plotted at all. */
  function PlotCheck(m: Model, kwargs: map<Name, Arg>): (o: Outcome)
    ensures o.Fail? <==> |m.independentVars| >= 2 || (|m.independentVars| == 1 && m.independentVars[0] !in kwargs)
    ensures |m.independentVars| == 1 && o.Fail? ==> o.error == KeyError(Some(m.independentVars[0]))
  {
    if |m.independentVars| == 0 then Pass
    else if |m.independentVars| == 1 then
      (if m.independentVars[0] in kwargs then Pass else Fail(KeyError(Some(m.independentVars[0]))))
    else Fail(Unsupported("Cannot plot models with more than one indepedent variable."))
  }

  /** The loop of the dependency pass: the parameters are taken in order,
      each by AssignOne, and the symbol table as the pass left it is
      returned with the outcome. */
  method AssignPass(params: ParamSet, known: set<Name>, parse: Parser, sym0: Symtab)
    returns (r: Result<Entries>, sym: Symtab)
    ensures var a := AssignUpTo(params.order, params.entries, known, parse, |params.order|);
      && r == a
      && (a.Ok? ==> sym == SymUpTo(params.order, params.entries, sym0, |params.order|))
      && (a.Err? ==> exists n: nat :: FailsAt(params.order, params.entries, known, parse, n)
                                      && sym == SymUpTo(params.order, params.entries, sym0, n))
  {
    var entries := params.entries;
    sym := sym0;
    var i := 0;
    while i < |params.order|
      invariant i <= |params.order|
      invariant AssignUpTo(params.order, params.entries, known, parse, i) == Ok(entries)
      invariant sym == SymUpTo(params.order, params.entries, sym0, i)
    {
      var next, sym1 := AssignOne(params, known, parse, sym0, i, entries, sym);
      if next.Err? {
        return next, sym;
      }
      entries, sym, i := next.value, sym1, i + 1;
    }
    assert params.order[..|params.order|] == params.order;
    return Ok(entries), sym;
  }

  /** One parameter of the dependency pass, the i-th in order: a constrained
      one has its expression parsed, its dependencies listed among `known`
      and its name defaulted to its key, and its value goes to the symbol
      table; a parse error ends the pass with that error. */
  method AssignOne(params: ParamSet, known: set<Name>, parse: Parser, sym0: Symtab, i: nat, entries: Entries, sym: Symtab)
    returns (next: Result<Entries>, sym1: Symtab)
    requires i < |params.order|
    requires AssignUpTo(params.order, params.entries, known, parse, i) == Ok(entries)
    requires sym == SymUpTo(params.order, params.entries, sym0, i)
    ensures next.Ok? ==> AssignUpTo(params.order, params.entries, known, parse, i + 1) == next
                         && sym1 == SymUpTo(params.order, params.entries, sym0, i + 1)
    ensures next.Err? ==> AssignUpTo(params.order, params.entries, known, parse, |params.order|) == next
                          && FailsAt(params.order, params.entries, known, parse, i) && sym1 == sym
  {
    var key := params.order[i];
    var par := entries[key];
    AssignStep(params.order, params.entries, known, parse, sym0, i);
    if par.expr.None? {
      return Ok(entries), sym;
    }
    var ast := parse(par.expr.value);
    if ast.None? {
      return Err(ParseError(key, par.expr.value)), sym;
    }
    var deps := CollectDeps(Names(ast.value), known);
    var named := if par.name.None? then Some(key) else par.name;
    next := Ok(entries[key := par.(ast := ast, deps := Some(deps), name := named)]);
    sym1 := sym[key := par.value];
  }

  // ---------------------------------------------------------------------
  // The Fitter

  class Fitter {
    var data: Data
    var kwargs: map<Name, Arg>
    var model: Option<Model>
    var currentResult: Option<FitResult>
    var currentParams: ParamSet
    /** The expression interpreter's symbol table. */
    var symtable: Symtab
    /** Whether the guess button is disabled. */
    var guessingDisabled: bool
    /** The expression interpreter's parser. */
    const parse: Parser

    /** A Fitter before a model has been set. */
    constructor (data: Data, kwargs: map<Name, Arg>, parse: Parser)
      ensures this.data == data && this.kwargs == kwargs && this.parse == parse
      ensures model.None? && currentResult.None? && currentParams == ParamTable([], map[])
      ensures symtable == map[] && !guessingDisabled
    {
      this.data := data;
      this.kwargs := kwargs;
      this.parse := parse;
      model := None;
      currentResult := None;
      currentParams := ParamTable([], map[]);
      symtable := map[];
      guessingDisabled := false;
    }

    /** A new Fitter for `data`, set to `model`, or to `fallback` when no model
        is given (the library's exponential model). */
    static method Create(data: Data, model: Option<ModelChoice>, kwargs: map<Name, Arg>, parse: Parser, fallback: ModelChoice)
      returns (f: Fitter, outcome: Outcome)
      requires var m := Instantiate(if model.Some? then model.value else fallback);
        Resolvable(GuessBranch(m, data, kwargs), m.defaultParams.entries.Keys, parse)
      ensures fresh(f)
      ensures f.data == data && f.kwargs == kwargs && f.parse == parse
      ensures var m := Instantiate(if model.Some? then model.value else fallback);
        && f.model == Some(m)
        && f.currentResult.None?
        && GuessDone(GuessBranch(m, data, kwargs), parse, Session(false, m.defaultParams, map[]),
                     Session(f.guessingDisabled, f.currentParams, f.symtable), outcome)
    {
      f := new Fitter(data, kwargs, parse);
      var choice := if model.Some? then model.value else fallback;
      outcome := f.SetModel(choice);
    }

    /** Setting `model`: a callable is called to build the model; the fit
        result is dropped, the parameters become the model's own, the symbol
        table starts empty, and then guess() runs. */
    method SetModel(value: ModelChoice) returns (outcome: Outcome)
      requires var m := Instantiate(value); Resolvable(GuessBranch(m, data, kwargs), m.defaultParams.entries.Keys, parse)
      modifies this`model, this`currentResult, this`currentParams, this`symtable, this`guessingDisabled
      ensures var m := Instantiate(value);
        && model == Some(m)
        && currentResult.None?
        && GuessDone(GuessBranch(m, data, kwargs), parse, Session(old(guessingDisabled), m.defaultParams, map[]),
                     Session(guessingDisabled, currentParams, symtable), outcome)
    {
      var m := Instantiate(value);
      model := Some(m);
      currentResult := None;
      currentParams := m.defaultParams;
      symtable := map[];
      outcome := Guess();
    }

    /** The `current_params` getter (the form widgets are not modelled). */
    method GetCurrentParams() returns (ps: ParamSet)
      ensures ps == currentParams
    {
      ps := currentParams;
    }

    /** The `current_params` setter (the form widgets are not modelled). */
    method SetCurrentParams(value: ParamSet)
      modifies this`currentParams
      ensures currentParams == value
    {
      currentParams := value;
    }

    /** guess(): asks the model for starting parameters, lists the
        dependencies of the constrained ones, evaluates every one still unset
        and makes the result the current parameters. */
    method Guess() returns (outcome: Outcome)
      requires model.Some?
      requires Resolvable(GuessBranch(model.value, data, kwargs), currentParams.entries.Keys, parse)
      modifies this`guessingDisabled, this`currentParams, this`symtable
      ensures GuessDone(GuessBranch(model.value, data, kwargs), parse,
                        Session(old(guessingDisabled), old(currentParams), old(symtable)),
                        Session(guessingDisabled, currentParams, symtable), outcome)
    {
      var step := GuessBranch(model.value, data, kwargs);
      match step {
        case Failed(err) =>
          return Fail(err);
        case Disabled =>
          guessingDisabled := true;
          return Pass;
        case Guessed(ps) =>
          guessingDisabled := false;
          outcome := Passes(ps);
      }
    }

    /** The two passes guess() runs over the guessed parameters `ps`: the
        dependency pass, then the resolution loop, whose result becomes the
        current parameters. */
    method Passes(ps: ParamSet) returns (outcome: Outcome)
      requires PassesResolvable(ps, currentParams.entries.Keys, parse)
      modifies this`currentParams, this`symtable
      ensures PassesDone(ps, parse, Session(guessingDisabled, old(currentParams), old(symtable)),
                         Session(guessingDisabled, currentParams, symtable), outcome)
    {
      var assignedPass := AssignDeps(ps);
      if assignedPass.Err? {
        return Fail(assignedPass.error);
      }
      var a := assignedPass.value;
      var resolved := ResolveUnset(a, SomeRank(a.entries));
      if resolved.Err? {
        return Fail(resolved.error);
      }
      SetCurrentParams(ParamTable(a.order, resolved.value));
      return Pass;
    }

    /** The resolution loop of guess() over the parameters `a` the dependency
        pass produced: each one still unset when its turn comes is resolved
        by its own name. `rank` witnesses that the dependencies have no
        cycle. */
    method ResolveUnset(a: ParamSet, ghost rank: map<Name, nat>) returns (r: Result<Entries>)
      requires Ranked(a.entries, rank)
      modifies this`symtable
      ensures var res := ResolvePassUpTo(a.order, a.entries, old(symtable), parse, rank, |a.order|);
        && (res.Ok? ==> r == Ok(res.value.entries) && symtable == res.value.sym)
        && (res.Err? ==> r == Err(res.error))
    {
      ghost var sym0 := symtable;
      var entries := a.entries;
      var i := 0;
      while i < |a.order|
        invariant i <= |a.order|
        invariant ResolvePassUpTo(a.order, a.entries, sym0, parse, rank, i) == Ok(State(entries, symtable))
      {
        var next := ResolveAt(a, rank, sym0, i, entries);
        if next.Err? {
          return next;
        }
        entries, i := next.value, i + 1;
      }
      return Ok(entries);
    }

    /** One turn of the resolution loop: the i-th parameter in order is left
        alone if it has a value, and otherwise resolved under its name; one
        without a name fails the lookup. */
    method ResolveAt(a: ParamSet, ghost rank: map<Name, nat>, ghost sym0: Symtab, i: nat, entries: Entries) returns (r: Result<Entries>)
      requires Ranked(a.entries, rank) && i < |a.order|
      requires ResolvePassUpTo(a.order, a.entries, sym0, parse, rank, i) == Ok(State(entries, symtable))
      modifies this`symtable
      ensures r.Ok? ==> ResolvePassUpTo(a.order, a.entries, sym0, parse, rank, i + 1) == Ok(State(r.value, symtable))
      ensures r.Err? ==> ResolvePassUpTo(a.order, a.entries, sym0, parse, rank, |a.order|) == Err(r.error)
    {
      var p := entries[a.order[i]];
      if p.value.Some? {
        return Ok(entries);
      }
      if p.name.None? {
        ResolvePassStops(a.order, a.entries, sym0, parse, rank, i + 1, |a.order|);
        return Err(KeyError(None));
      }
      RankedKept(a.entries, entries, rank);
      r := UpdateParamVal(entries, p.name.value, rank);
      if r.Err? {
        ResolvePassStops(a.order, a.entries, sym0, parse, rank, i + 1, |a.order|);
      }
    }

    /** __assign_deps: the dependency pass over `params` against the current
        parameters, writing the values of the constrained parameters to the
        symbol table. A parse error stops the pass. */
    method AssignDeps(params: ParamSet) returns (r: Result<ParamSet>)
      modifies this`symtable
      ensures var a := AssignUpTo(params.order, params.entries, currentParams.entries.Keys, parse, |params.order|);
        && (a.Ok? ==> r.Ok? && r.value.order == params.order && r.value.entries == a.value
                      && symtable == SymUpTo(params.order, params.entries, old(symtable), |params.order|))
        && (a.Err? ==> r == Err(a.error)
                       && exists n: nat :: FailsAt(params.order, params.entries, currentParams.entries.Keys, parse, n)
                                           && symtable == SymUpTo(params.order, params.entries, old(symtable), n))
    {
      var current := GetCurrentParams();
      var entries, sym := AssignPass(params, current.entries.Keys, parse, symtable);
      symtable := sym;
      if entries.Err? {
        return Err(entries.error);
      }
      return Ok(ParamTable(params.order, entries.value));
    }

    /** Resolves `name` depth first: a free parameter's value is written to
        the symbol table; a constrained one is parsed, unless its parse is
        cached, and evaluated by EvaluateParam. `rank` witnesses that the
        dependencies have no cycle. */
    method UpdateParamVal(params: Entries, name: Name, ghost rank: map<Name, nat>) returns (r: Result<Entries>)
      requires Ranked(params, rank)
      modifies this`symtable
      decreases if name in rank then rank[name] else 0, 2
      ensures var res := Resolve(params, old(symtable), name, parse, rank);
        && (res.Ok? ==> r == Ok(res.value.entries) && symtable == res.value.sym)
        && (res.Err? ==> r == Err(res.error))
      ensures r.Ok? ==> Consistent(r.value, symtable, name)
    {
      if name !in params {
        return Err(KeyError(Some(name)));
      }
      var par := params[name];
      if par.expr.None? {
        symtable := symtable[name := par.value];
        return Ok(params);
      }
      var ast := par.ast;
      if ast.None? {
        ast := parse(par.expr.value);
        if ast.None? {
          return Err(ParseError(name, par.expr.value));
        }
      }
      r := EvaluateParam(params, name, ast.value, rank);
      if r.Ok? {
        ResolveExprFacts(params, old(symtable), name, ast.value, parse, rank);
      }
    }

    /** Evaluates the constrained parameter `name`, whose expression parsed to
        `ast`: every dependency is resolved first, then the expression runs
        and its value is stored on the parameter and in the symbol table. */
    method EvaluateParam(params: Entries, name: Name, ast: Expr, ghost rank: map<Name, nat>) returns (r: Result<Entries>)
      requires Ranked(params, rank) && name in params && params[name].expr.Some?
      requires params[name].ast.Some? ==> params[name].ast == Some(ast)
      modifies this`symtable
      decreases rank[name], 1
      ensures var res := ResolveExpr(params, old(symtable), name, ast, parse, rank);
        && (res.Ok? ==> r == Ok(res.value.entries) && symtable == res.value.sym)
        && (res.Err? ==> r == Err(res.error))
    {
      var par := params[name].(ast := Some(ast));
      var start := params[name := par];
      RankedKept(params, start, rank);
      var resolved := ResolveDeps(start, DepsOf(par), rank, rank[name]);
      if resolved.Err? {
        return resolved;
      }
      var v := Eval(ast, symtable);
      if v.Err? {
        return Err(v.error);
      }
      symtable := symtable[name := v.value];
      return Ok(resolved.value[name := par.(value := v.value)]);
    }

    /** The dependency loop of __update_paramval: each of `deps` is resolved
        in turn, depth first; the first failure ends the loop. */
    method ResolveDeps(params: Entries, deps: seq<Name>, ghost rank: map<Name, nat>, ghost bound: nat) returns (r: Result<Entries>)
      requires Ranked(params, rank)
      requires forall d :: d in deps ==> d in rank && rank[d] < bound
      modifies this`symtable
      decreases bound, 0
      ensures var res := ResolveAll(params, old(symtable), deps, parse, rank, bound);
        && (res.Ok? ==> r == Ok(res.value.entries) && symtable == res.value.sym)
        && (res.Err? ==> r == Err(res.error))
    {
      var entries := params;
      for i := 0 to |deps|
        invariant ResolveAll(params, old(symtable), deps[..i], parse, rank, bound) == Ok(State(entries, symtable))
      {
        assert deps[..i + 1][..i] == deps[..i];
        assert deps[i] in deps;
        RankedKept(params, entries, rank);
        var res := UpdateParamVal(entries, deps[i], rank);
        if res.Err? {
          ResolveAllStops(params, old(symtable), deps, parse, rank, bound, i + 1);
          return res;
        }
        entries := res.value;
      }
      assert deps[..|deps|] == deps;
      return Ok(entries);
    }

    /** fit(): the model is fitted with the current parameters, the session's
        keyword arguments and the call's, later ones taking precedence; the
        result and its parameters become current, and the plot is drawn. If
        the fit raises, nothing changes. */
    method Fit(args: seq<Arg>, overrides: map<Name, Arg>) returns (outcome: Outcome)
      requires model.Some?
      modifies this`currentResult, this`currentParams
      ensures var call := model.value.fit(data, args, FitArgs(old(currentParams), kwargs, overrides));
        && (call.Err? ==> outcome == Fail(call.error) && currentResult == old(currentResult) && currentParams == old(currentParams))
        && (call.Ok? ==> currentResult == Some(call.value) && currentParams == call.value.params
                         && outcome == PlotCheck(model.value, kwargs))
    {
      var current := GetCurrentParams();
      var merged := AsArgs(current);
      merged := merged + kwargs;
      merged := merged + overrides;
      var call := model.value.fit(data, args, merged);
      if call.Err? {
        return Fail(call.error);
      }
      currentResult := Some(call.value);
      SetCurrentParams(call.value.params);
      outcome := PlotCheck(model.value, kwargs);
    }
  }
}
