/** Vocabulary shared by the whole model: parameter names, the exceptions the
    fitter can let escape, and the wrappers that stand in for Python's None
    and for raising. */
module Basics {

  /** A parameter or symbol name. */
  type Name = string

  datatype Option<+T> = None | Some(value: T)

  /** The exceptions that can escape a Fitter operation. */
  datatype Error =
    | ParseError(param: Name, source: string)   // the expression of `param` does not parse
    | NameError(id: Name)                       // an expression reads a symbol the symbol table lacks
    | TypeError                                 // arithmetic on a value that is still None
    | KeyError(key: Option<Name>)               // a dictionary lookup failed (the key may be None)
    | UnboundGuess                              // UnboundLocalError: `guess` read before assignment
    | Unsupported(reason: string)               // NotImplementedError raised while plotting
    | ModelFailure(reason: string)              // raised by the model library's own guess or fit

  /** A computation that returns a value or raises. */
  datatype Result<+T> = Ok(value: T) | Err(error: Error)

  /** A statement that completes or raises. */
  datatype Outcome = Pass | Fail(error: Error)

  /** No name occurs twice: each one is new when it is appended. */
  predicate NoDuplicates(s: seq<Name>)
  {
    s == [] || (s[|s| - 1] !in s[..|s| - 1] && NoDuplicates(s[..|s| - 1]))
  }

  /** Every prefix of a sequence without repetitions has none either. */
  lemma {:induction false} NoDuplicatesPrefix(s: seq<Name>, n: nat)
    requires n <= |s| && NoDuplicates(s)
    ensures NoDuplicates(s[..n])
    decreases |s| - n
  {
    if n < |s| {
      NoDuplicatesPrefix(s, n + 1);
      assert s[..n + 1][..n] == s[..n];
    } else {
      assert s[..n] == s;
    }
  }

  /** The prefix as long as the sequence is the sequence itself. */
  lemma WholePrefix(s: seq<Name>)
    ensures s[..|s|] == s
  {
  }
}
