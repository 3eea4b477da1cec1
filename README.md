# lmfit Fitter, modelled in Dafny

This project models the interactive `Fitter` of lmfit (`lmfit/fitter.py`). A
Fitter holds a data array, the keyword arguments it was created with (the
independent variables, such as `x=x`), a model, the latest fit result and the
current parameters. It also holds the symbol table of an expression
interpreter, in which constrained parameters are evaluated.

- Setting `model` builds the model when given a model class. It then drops the
  fit result, takes the model's own parameters (`make_params()`), starts a
  fresh interpreter and calls `guess()`.
- `guess()` asks the model for starting parameters. It passes the single
  independent variable when there is one. A model that cannot guess disables
  guessing. Then two passes run over the guessed parameters:
  - the dependency pass (`__assign_deps`): for every constrained parameter (one
    with an `expr`), parse the expression, list the current parameters it names
    (each once, in first-seen order), write its value to the symbol table and
    default its name to its key;
  - the resolution loop: every parameter still without a value is resolved
    depth first (`__update_paramval`). Its dependencies are resolved before
    its expression runs, and every resolved value is written to the symbol
    table.

  The result becomes the current parameters.
- `fit()` merges the current parameters, the session's keyword arguments and
  the call's own (later ones win), fits the model, makes the result current
  and plots. Before drawing anything, plotting raises for a model whose
  independent variable is missing or that has more than one.

## How the model is laid out

- `Basics`: names, `Option`, `Result`, the errors the Fitter can raise
  (parse errors, `NameError`, `TypeError`, `KeyError`, an unbound guess, an
  unsupported plot, a failing model call), and `NoDuplicates`.
- `Expressions`: the expressions the interpreter runs (constants, names,
  `+`, `*`) and their evaluation against a symbol table. A name that is not
  bound is a `NameError`. Arithmetic on `None` is a `TypeError`.
- `Dependencies`: `DepsFrom`, the dependency list of an expression, and
  `CollectDeps`, the loop that builds it.
- `Parameters`: parameters, ordered parameter sets (`ParamSet`), and the
  rank that witnesses an acyclic dependency graph.
- `Resolution`: the two passes as specification functions. `AssignUpTo` and
  `SymUpTo` are the dependency pass. `Resolve`, `ResolveExpr` and `ResolveAll`
  are depth-first resolution. `ResolvePassUpTo` is the loop in `guess()`. The
  module also holds the lemmas about them.
- `Fitting`: the `Fitter` class. Its methods are proved against those
  functions. The module also holds the call into the model's `guess()`,
  `fit()`'s argument merge and `plot()`'s checks.

The interpreter's parser is a function-valued constant of the Fitter. The
model's `guess`, `fit` and `make_params` are fields of the `Model` datatype.
They are numerical code outside this model.

## Model

| member | source | states |
|---|---|---|
| Fitting.Fitter.constructor | lmfit/fitter.py:75-77 | the Fitter stores its data and keyword arguments; no model, no fit result, no parameters, an empty symbol table |
| Fitting.Fitter.Create | lmfit/fitter.py:75-95 | a new Fitter is bound to the given model, or to the default one when none is given, and has run guess() on the model's own parameters from an empty symbol table |
| Fitting.Fitter.SetModel | lmfit/fitter.py:118-146 | a model class is instantiated; the fit result is dropped; guess() runs with the model's parameters as the current ones and an empty symbol table, and the new state is exactly what GuessDone prescribes for that start |
| Fitting.Fitter.GetCurrentParams | lmfit/fitter.py:148-157 | returns the current parameters |
| Fitting.Fitter.SetCurrentParams | lmfit/fitter.py:159-164 | the current parameters become the given ones and nothing else changes |
| Fitting.GuessBranch | lmfit/fitter.py:166-179 | a model without independent variables is called with no arguments, and one with a single variable with that variable as the session gives it; the model's reply decides the step (returned parameters are the guess, NotImplementedError disables guessing, any other exception fails with it); two or more independent variables disable guessing; a missing independent variable is a KeyError on its name |
| Fitting.GuessUnboundForSeveralVariables | lmfit/fitter.py:167-182 | as written, every model with two or more independent variables leaves the guess unbound and guessing enabled, where the corrected call disables guessing |
| Fitting.GuessBranchCorrects | lmfit/fitter.py:167-182 | the corrected call agrees with the written one on every guess and every error, and differs only where the written one reads the unbound guess |
| Fitting.Fitter.Guess | lmfit/fitter.py:166-187 | a failing model call changes nothing; disabled guessing sets the flag and keeps the parameters; a guess clears the flag and runs both passes, so the new state is GuessDone of the old one |
| Fitting.GuessSettles | lmfit/fitter.py:166-213 | after a guess that went through: the parameters keep the guess's order; free parameters are exactly as guessed; each constrained one carries the parse of its expression, has its dependencies listed once each, all among the previously current parameters, and its name defaulted to its key; every unset parameter that answers to its key holds its value in the symbol table |
| Fitting.Fitter.Passes | lmfit/fitter.py:182-187 | the dependency pass, then the resolution loop; on success the current parameters are the resolved ones in the guess's order with the resolved symbol table; on any failure the current parameters are kept and the error is returned; after a parse error the symbol table holds the writes of the parameters before the one that failed |
| Fitting.Fitter.ResolveUnset | lmfit/fitter.py:183-185 | the loop over the parameters yields exactly ResolvePassUpTo over the whole order: the same entries and symbol table on success, the same error on failure |
| Fitting.Fitter.ResolveAt | lmfit/fitter.py:183-185 | one turn: a parameter with a value is skipped, one without a name fails the lookup, any other is resolved by name; success advances ResolvePassUpTo by one turn, and an error is the error of the whole loop |
| Resolution.ResolvePassSettles | lmfit/fitter.py:183-185 | after the loop over order[..n]: every symbol-table entry that agreed with its parameter still does, every changed value is in the table, and every unset parameter of the prefix that answers to its key is in the table |
| Resolution.PassesSettle | lmfit/fitter.py:182-213 | the two passes together keep free parameters unchanged; every constrained parameter carries the parse of its expression, cached by the dependency pass and kept by resolution, its duplicate-free dependency list among the known names and its defaulted name; every unset parameter that answers to its key is in the symbol table |
| Fitting.Fitter.AssignDeps | lmfit/fitter.py:189-205 | the dependency pass against the current parameters' names: on success the parameters are AssignUpTo's, in the same order, and the symbol table is SymUpTo's; on a parse error that error is returned and the table holds exactly the writes of the parameters before the one whose turn failed |
| Fitting.AssignPass | lmfit/fitter.py:192-205 | the loop over the parameters yields AssignUpTo over the whole order; on success the symbol table is SymUpTo over the whole order, on failure SymUpTo of the prefix before the parameter whose turn failed |
| Fitting.AssignOne | lmfit/fitter.py:193-205 | one turn of the pass advances AssignUpTo and SymUpTo by one parameter; a parse error is the error of the whole pass, the pass fails at this turn, and the symbol table is left as it was |
| Resolution.AssignUpTo | lmfit/fitter.py:192-205 | the dependency pass keeps the set of parameter names |
| Resolution.AssignStep | lmfit/fitter.py:192-205 | one turn: a free parameter is skipped and the table is unchanged; an unparseable expression makes the whole pass fail with a ParseError naming that parameter and expression; otherwise the parameter gets its parse, dependencies and name, and its value is written to the table under its key |
| Resolution.AssignUpToEffect | lmfit/fitter.py:192-205 | after the pass over order[..n], every constrained parameter in the prefix parsed and is exactly its Assigned form; every other parameter is unchanged |
| Resolution.AssignUpToError | lmfit/fitter.py:193-195 | a failed pass reports a ParseError naming a parameter of the prefix, together with that parameter's expression, which does not parse |
| Resolution.SymUpToEffect | lmfit/fitter.py:203 | the pass writes each constrained parameter's value under its key and leaves every other entry of the symbol table as it was |
| Dependencies.CollectDeps | lmfit/fitter.py:196-202 | the loop builds exactly DepsFrom of the names and the known set |
| Dependencies.DepsFromMembers | lmfit/fitter.py:199-202 | a name is a dependency if and only if the expression names it and it is a known parameter |
| Dependencies.DepsFromNoDuplicates | lmfit/fitter.py:200-202 | no dependency is listed twice |
| Dependencies.DepsFromFirstSeenOrder | lmfit/fitter.py:199-202 | dependencies are listed in the order the expression first names them |
| Fitting.Fitter.UpdateParamVal | lmfit/fitter.py:207-221 | resolving a name does exactly what Resolve prescribes, in the returned parameters and the symbol table, or returns its error; on success the table holds the parameter's value under its name |
| Resolution.Resolve | lmfit/fitter.py:207-221 | a resolved name is a parameter, and resolution changes only the values of constrained parameters and caches a parse only where none was cached |
| Resolution.ResolveFacts | lmfit/fitter.py:207-221 | after resolving a name: the table holds its value; every entry that agreed with its parameter still does; every changed value is in the table; nothing ranked at or above it other than itself was touched; every dependency of a constrained parameter is in the table |
| Fitting.Fitter.EvaluateParam | lmfit/fitter.py:211-221 | evaluating a constrained parameter does exactly what ResolveExpr prescribes, or returns its error |
| Resolution.ResolveExpr | lmfit/fitter.py:211-221 | evaluating a constrained parameter changes only values, and caches a parse only where none was cached |
| Resolution.ResolveExprFacts | lmfit/fitter.py:211-221 | the facts of ResolveFacts for a constrained parameter whose expression has parsed |
| Resolution.ResolveEvaluatesAfterDeps | lmfit/fitter.py:211-221 | a resolved constrained parameter keeps the cached parse, or the fresh one when none was cached; its value is its expression run against the final symbol table with its own entry as it was before; when the expression does not name the parameter itself, the value is the expression run against the final table |
| Fitting.Fitter.ResolveDeps | lmfit/fitter.py:214-216 | the loop over the dependencies yields exactly ResolveAll: the same entries and symbol table on success, the first failure's error otherwise |
| Resolution.ResolveAll | lmfit/fitter.py:214-216 | resolving a list of dependencies changes only values, and caches a parse only where none was cached |
| Resolution.ResolveAllFacts | lmfit/fitter.py:214-216 | after resolving a list of dependencies, every one of them is in the symbol table, agreeing entries stay agreeing, and nothing ranked at or above the bound was touched |
| Expressions.Eval | lmfit/fitter.py:217-220 | evaluation succeeds with a value or fails with a NameError for a name not in the table or a TypeError for arithmetic on an unset value |
| Expressions.EvalReadsOnlyNames | lmfit/fitter.py:217 | an expression's value depends only on the table entries of the names it contains |
| Expressions.EvalDefinedWhenBound | lmfit/fitter.py:217 | an expression whose names are all bound to set values evaluates without error |
| Resolution.ResolvePassUpTo | lmfit/fitter.py:183-185 | the resolution loop changes only the values of constrained parameters and caches a parse only where none was cached |
| Fitting.FitArgs | lmfit/fitter.py:225-227 | the merged arguments have exactly the keys of the three sources; the call's arguments win over the session's, which win over the current parameters |
| Fitting.PlotCheck | lmfit/fitter.py:240-248 | plotting fails if and only if the model has several independent variables or its single one is missing from the session's arguments; a missing one is a KeyError on its name |
| Fitting.Fitter.Fit | lmfit/fitter.py:223-230 | the model is fitted with the merged arguments; a failing fit changes nothing; otherwise the result and its parameters become current and the outcome is the plot's check |

## Left out

- The IPython widgets are not modelled: the model menu, the buttons and the parameter widgets, with their construction and display, the widget sync in the `current_params` getter and setter, and the widget callbacks. Only the guess button's `disabled` flag is kept, as a field.
- When IPython is missing, the guess button does not exist and `guess()` raises an AttributeError. The model always has the flag.
- The drawing in `plot()` (matplotlib, `clear_output`, the figure) is not modelled. The swallowed ImportError of matplotlib is not modelled either. Only the exceptions `plot()` raises before drawing are kept.
- `Model.__subclasses__()`, the `data` property and `_on_*` callbacks are outside the modelled core.
- The interpreter (`Interpreter`, `NameFinder`, `check_ast_errors`) is reduced to a parser constant and `Eval` over integers with `+` and `*`. The builtins a fresh interpreter starts with, its accumulated error list and its other operators are not modelled. A parse or run failure is an immediate error result.
- Floating-point values are modelled as integers. Parameter bounds (`min`, `max`) are left out, because only the widgets read them.
- The model's numerical `guess`, `fit` and `make_params` are parameters of the `Model` datatype, not code of this project.
- Parameter objects are values. `__assign_deps` and `__update_paramval` mutate the `Parameter` objects in place; here the updated table is returned. Aliasing between the guessed parameters and other holders of the same objects is not captured.
- Fitting.Fitter.AssignDeps: the symbol table is written once, after the pass, from a local copy. The observable table is the same after success and after a parse error.
- Fitting.Fitter.Guess: requires that the guessed parameters, once the dependency pass lists their dependencies, have an acyclic dependency graph. The resolution loop only follows dependencies from parameters that are still unset, so a cycle among parameters that all have values does not stop the source from finishing; such inputs are excluded as well. A cycle reached from an unset parameter makes the source recurse until Python's recursion limit; that path is not modelled either. The same requirement sits on Fitting.Fitter.SetModel and Fitting.Fitter.Create.
- Fitting.Fitter.Passes: on a failed resolution loop the contract keeps the current parameters but does not state the symbol table.
- Fitting.Fitter.Create: the default ExponentialModel is passed in as `fallback`. The source's constructor raises when `guess()` raises, but Create returns the Fitter together with the failing outcome.
- Fitting.FitArgs: keyword-argument order is not modelled, since a map has none.

## Findings

| source | as written | input that shows it | evidently intended | confidence | as-written member | corrected member |
|---|---|---|---|---|---|---|
| lmfit/fitter.py:167-182 | `guess` is bound only when the model has at most one independent variable and its guess() returns; with two or more variables, or when guess() raises NotImplementedError, line 182 reads an unbound `guess` and fails (UnboundLocalError) | a model with independent variables `x` and `y`; or a one-variable model whose guess() raises NotImplementedError | guessing is disabled and the current parameters are kept | not executed | Fitting.GuessBranchAsWritten, Fitting.GuessUnboundForSeveralVariables | Fitting.GuessBranch, Fitting.GuessBranchCorrects |
