/** How an expression parameter's `deps` list is built from the names its
    expression reads: keep the names of known parameters, each once, in the
    order they are first met. */
module Dependencies {
  import opened Basics

  /** The list the collecting loop has built after reading `names`. */
  function DepsFrom(names: seq<Name>, known: set<Name>): seq<Name>
  {
    if names == [] then []
    else
      var prev := DepsFrom(names[..|names| - 1], known);
      var x := names[|names| - 1];
      if x in known && x !in prev then prev + [x] else prev
  }

  /** Position of the first occurrence of `x` in `s`. */
  function FirstIndex(s: seq<Name>, x: Name): (i: nat)
    requires x in s
    ensures i < |s| && s[i] == x && x !in s[..i]
  {
    if s[0] == x then 0
    else
      var j := FirstIndex(s[1..], x);
      assert s[1..][..j] == s[1..j + 1];
      j + 1
  }

  /** The first occurrence of `x` in a prefix is its first occurrence in the whole. */
  lemma FirstIndexOfPrefix(s: seq<Name>, n: nat, x: Name)
    requires n <= |s| && x in s[..n]
    ensures x in s && FirstIndex(s, x) == FirstIndex(s[..n], x)
  {
    var i := FirstIndex(s[..n], x);
    var k := FirstIndex(s, x);
    assert s[..n][..i] == s[..i];
    assert s[i] == x;
    forall j | 0 <= j < i ensures s[j] != x {
      assert s[..i][j] == s[j];
    }
    forall j | 0 <= j < k ensures s[j] != x {
      assert s[..k][j] == s[j];
    }
  }

  /** A name is a dependency exactly when the expression reads it and it is known. */
  lemma {:induction false} DepsFromMembers(names: seq<Name>, known: set<Name>)
    ensures forall x :: x in DepsFrom(names, known) <==> x in names && x in known
  {
    if names != [] {
      var init := names[..|names| - 1];
      DepsFromMembers(init, known);
      assert names == init + [names[|names| - 1]];
    }
  }

  /** No dependency is listed twice. */
  lemma {:induction false} DepsFromNoDuplicates(names: seq<Name>, known: set<Name>)
    ensures NoDuplicates(DepsFrom(names, known))
  {
    if names != [] {
      var init := DepsFrom(names[..|names| - 1], known);
      DepsFromNoDuplicates(names[..|names| - 1], known);
      assert (init + [names[|names| - 1]])[..|init|] == init;
    }
  }

  /** Dependencies are listed in the order their names are first met. */
  lemma {:induction false} DepsFromFirstSeenOrder(names: seq<Name>, known: set<Name>)
    ensures var d := DepsFrom(names, known);
      forall x :: x in d ==> x in names
    ensures var d := DepsFrom(names, known);
      forall i, j :: 0 <= i < j < |d| ==> FirstIndex(names, d[i]) < FirstIndex(names, d[j])
  {
    DepsFromMembers(names, known);
    if names != [] {
      var n := |names| - 1;
      var init := names[..n];
      DepsFromFirstSeenOrder(init, known);
      DepsFromMembers(init, known);
      FirstSeenStep(names, known);
    }
  }

  /** The step of DepsFromFirstSeenOrder: reading one more name keeps the order. */
  lemma FirstSeenStep(names: seq<Name>, known: set<Name>)
    requires names != []
    requires var init := names[..|names| - 1]; var prev := DepsFrom(init, known);
      (forall x :: x in prev <==> x in init && x in known) &&
      forall i, j :: 0 <= i < j < |prev| ==> FirstIndex(init, prev[i]) < FirstIndex(init, prev[j])
    ensures var d := DepsFrom(names, known);
      forall i, j :: 0 <= i < j < |d| ==> d[i] in names && d[j] in names && FirstIndex(names, d[i]) < FirstIndex(names, d[j])
  {
    var n := |names| - 1;
    var init := names[..n];
    var x := names[n];
    var prev := DepsFrom(init, known);
    forall y | y in prev
      ensures y in names && FirstIndex(names, y) == FirstIndex(init, y) < n
    {
      FirstIndexOfPrefix(names, n, y);
    }
    if x in known && x !in prev {
      assert x !in init;
      assert FirstIndex(names, x) == n by {
        assert names[..n] == init;
      }
      var d := prev + [x];
      forall i, j | 0 <= i < j < |d|
        ensures d[i] in names && d[j] in names && FirstIndex(names, d[i]) < FirstIndex(names, d[j])
      {
        assert d[i] == prev[i];
        if j < |prev| {
          assert d[j] == prev[j];
        }
      }
    }
  }

  /** The loop of the dependency pass: walk the names, append each known name
      that is not listed yet. */
  method CollectDeps(names: seq<Name>, known: set<Name>) returns (deps: seq<Name>)
    ensures deps == DepsFrom(names, known)
  {
    deps := [];
    for i := 0 to |names|
      invariant deps == DepsFrom(names[..i], known)
    {
      var symname := names[i];
      assert names[..i + 1][..i] == names[..i];
      if symname in known && symname !in deps {
        deps := deps + [symname];
      }
    }
    assert names[..|names|] == names;
  }
}
