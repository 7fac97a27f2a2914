/** Sequence helpers shared by the model: concatenation of per-element pieces and integer sums. */
module Seqs {
  import opened Wrappers

  /** The concatenation of f(x) over xs, in order. */
  function Flatten<T, U>(xs: seq<T>, f: T -> seq<U>): seq<U> {
    if xs == [] then [] else Flatten(xs[..|xs| - 1], f) + f(xs[|xs| - 1])
  }

  /** Flattening distributes over concatenation. */
  lemma {:induction false} FlattenAppend<T, U>(a: seq<T>, b: seq<T>, f: T -> seq<U>)
    ensures Flatten(a + b, f) == Flatten(a, f) + Flatten(b, f)
  {
    if b == [] {
      assert a + b == a;
    } else {
      var ab := a + b;
      FlattenAppend(a, b[..|b| - 1], f);
      assert ab[..|ab| - 1] == a + b[..|b| - 1];
      assert ab[|ab| - 1] == b[|b| - 1];
    }
  }

  /** Flattening a sequence that starts with x starts with f(x). */
  lemma FlattenCons<T, U>(x: T, rest: seq<T>, f: T -> seq<U>)
    ensures Flatten([x] + rest, f) == f(x) + Flatten(rest, f)
  {
    FlattenAppend([x], rest, f);
    assert [x][..0] == [];
  }

  /** Element i of f(xs[j]) sits at offset |Flatten(xs[..j], f)| + i of the flattening. */
  lemma FlattenAt<T, U>(xs: seq<T>, f: T -> seq<U>, j: nat, i: nat)
    requires j < |xs| && i < |f(xs[j])|
    ensures |Flatten(xs[..j], f)| + i < |Flatten(xs, f)|
    ensures Flatten(xs, f)[|Flatten(xs[..j], f)| + i] == f(xs[j])[i]
  {
    assert xs == xs[..j] + [xs[j]] + xs[j + 1..];
    FlattenAppend(xs[..j] + [xs[j]], xs[j + 1..], f);
    FlattenAppend(xs[..j], [xs[j]], f);
    assert [xs[j]][..0] == [];
  }

  /** The sum of w over s. */
  function SumOf<T>(s: seq<T>, w: T -> int): int {
    if s == [] then 0 else SumOf(s[..|s| - 1], w) + w(s[|s| - 1])
  }

  /** A sum over a concatenation is the sum of the sums. */
  lemma {:induction false} SumOfAppend<T>(a: seq<T>, b: seq<T>, w: T -> int)
    ensures SumOf(a + b, w) == SumOf(a, w) + SumOf(b, w)
  {
    if b == [] {
      assert a + b == a;
    } else {
      var ab := a + b;
      SumOfAppend(a, b[..|b| - 1], w);
      assert ab[..|ab| - 1] == a + b[..|b| - 1];
      assert ab[|ab| - 1] == b[|b| - 1];
    }
  }

  /** A sum does not depend on the order of the terms. */
  lemma {:induction false} SumOfPermutation<T>(a: seq<T>, b: seq<T>, w: T -> int)
    requires multiset(a) == multiset(b)
    ensures SumOf(a, w) == SumOf(b, w)
    decreases |a|
  {
    if a != [] {
      var init, x := a[..|a| - 1], a[|a| - 1];
      assert a == init + [x];
      assert x in multiset(b);
      var k :| 0 <= k < |b| && b[k] == x;
      var rest := b[..k] + b[k + 1..];
      assert b == b[..k] + [x] + b[k + 1..];
      assert multiset(init) == multiset(a) - multiset{x};
      assert multiset(rest) == multiset(b) - multiset{x};
      SumOfPermutation(init, rest, w);
      SumOfAppend(b[..k] + [x], b[k + 1..], w);
      SumOfAppend(b[..k], [x], w);
      SumOfAppend(b[..k], b[k + 1..], w);
      assert [x][..0] == [];
    } else {
      assert |b| == |multiset(b)| == 0;
    }
  }

  /** p holds of every element. */
  predicate All<T>(s: seq<T>, p: T -> bool) {
    forall i :: 0 <= i < |s| ==> p(s[i])
  }

  /** Whether p holds of every element does not depend on their order. */
  lemma AllPermutation<T>(a: seq<T>, b: seq<T>, p: T -> bool)
    requires multiset(a) == multiset(b)
    ensures All(a, p) <==> All(b, p)
  {
    forall i | 0 <= i < |a| ensures a[i] in multiset(b) {
      assert a[i] in multiset(a);
    }
    forall i | 0 <= i < |b| ensures b[i] in multiset(a) {
      assert b[i] in multiset(b);
    }
  }

  /** Adding the same multiset on both sides keeps an equation. */
  lemma MultisetFrame<T>(a: multiset<T>, b: multiset<T>, c: multiset<T>, x: multiset<T>, y: multiset<T>)
    requires b + x == c + y
    ensures (a + b) + x == (a + c) + y
  {
    forall z ensures ((a + b) + x)[z] == ((a + c) + y)[z] {
      assert (b + x)[z] == (c + y)[z];
    }
  }

  /** Removing the same multiset from both sides keeps an equation. */
  lemma MultisetCancel<T>(a: multiset<T>, b: multiset<T>, c: multiset<T>)
    requires a + c == b + c
    ensures a == b
  {
    forall x ensures a[x] == b[x] {
      assert (a + c)[x] == (b + c)[x];
    }
  }

  /** Runs step over xs in order, passing each element's position, and stops at the first failure. */
  function RunAll<T, R, E>(xs: seq<T>, step: (nat, T) -> Result<R, E>): Result<seq<R>, E> {
    if xs == [] then Success([])
    else
      match RunAll(xs[..|xs| - 1], step)
      case Failure(e) => Failure(e)
      case Success(rs) =>
        match step(|xs| - 1, xs[|xs| - 1])
        case Failure(e) => Failure(e)
        case Success(r) => Success(rs + [r])
  }

  /** The run completes iff every step succeeds, and then result i is step i's. */
  lemma {:induction false} RunAllSuccess<T, R, E>(xs: seq<T>, step: (nat, T) -> Result<R, E>)
    ensures RunAll(xs, step).Success? <==> forall i :: 0 <= i < |xs| ==> step(i, xs[i]).Success?
    ensures RunAll(xs, step).Success? ==>
      && |RunAll(xs, step).value| == |xs|
      && forall i :: 0 <= i < |xs| ==> RunAll(xs, step).value[i] == step(i, xs[i]).value
  {
    if xs != [] {
      var init := xs[..|xs| - 1];
      RunAllSuccess(init, step);
      assert forall i :: 0 <= i < |init| ==> init[i] == xs[i];
    }
  }

  /** A failed run reports the error of its first failing step. */
  lemma {:induction false} RunAllFailure<T, R, E>(xs: seq<T>, step: (nat, T) -> Result<R, E>)
    requires RunAll(xs, step).Failure?
    ensures exists i :: 0 <= i < |xs| && step(i, xs[i]) == Failure(RunAll(xs, step).error)
                        && forall j :: 0 <= j < i ==> step(j, xs[j]).Success?
  {
    var init := xs[..|xs| - 1];
    RunAllSuccess(init, step);
    if RunAll(init, step).Failure? {
      RunAllFailure(init, step);
      var i :| 0 <= i < |init| && step(i, init[i]) == Failure(RunAll(init, step).error)
                && forall j :: 0 <= j < i ==> step(j, init[j]).Success?;
      assert xs[i] == init[i];
      assert forall j :: 0 <= j < i ==> xs[j] == init[j];
    } else {
      var i := |xs| - 1;
      assert forall j :: 0 <= j < i ==> xs[j] == init[j];
    }
  }

  /** One more step of a run that has succeeded so far. */
  lemma RunAllExtend<T, R, E>(xs: seq<T>, n: nat, step: (nat, T) -> Result<R, E>, rs: seq<R>)
    requires n < |xs| && RunAll(xs[..n], step) == Success(rs)
    ensures step(n, xs[n]).Failure? ==> RunAll(xs[..n + 1], step) == Failure(step(n, xs[n]).error)
    ensures step(n, xs[n]).Success? ==> RunAll(xs[..n + 1], step) == Success(rs + [step(n, xs[n]).value])
  {
    assert xs[..n + 1][..n] == xs[..n];
  }

  /** Equal weights term by term give equal sums. */
  lemma {:induction false} SumOfPointwise<T, U>(a: seq<T>, wa: T -> int, b: seq<U>, wb: U -> int)
    requires |a| == |b|
    requires forall i :: 0 <= i < |a| ==> wa(a[i]) == wb(b[i])
    ensures SumOf(a, wa) == SumOf(b, wb)
  {
    if a != [] {
      SumOfPointwise(a[..|a| - 1], wa, b[..|b| - 1], wb);
    }
  }

  /** Properties that agree term by term hold of all terms together or of none. */
  lemma AllPointwise<T, U>(a: seq<T>, pa: T -> bool, b: seq<U>, pb: U -> bool)
    requires |a| == |b|
    requires forall i :: 0 <= i < |a| ==> pa(a[i]) == pb(b[i])
    ensures All(a, pa) <==> All(b, pb)
  {
  }

  /** The sum of term over xs in order, stopping at the first term that fails. */
  function SumAll<T, E>(xs: seq<T>, term: T -> Result<int, E>): Result<int, E> {
    if xs == [] then Success(0)
    else
      match SumAll(xs[..|xs| - 1], term)
      case Failure(e) => Failure(e)
      case Success(total) =>
        match term(xs[|xs| - 1])
        case Failure(e) => Failure(e)
        case Success(v) => Success(total + v)
  }

  /** The sum completes iff every term does, and then it is the sum of any weight that agrees with the terms. */
  lemma {:induction false} SumAllSuccess<T, E>(xs: seq<T>, term: T -> Result<int, E>, w: T -> int)
    requires forall x :: term(x).Success? ==> term(x).value == w(x)
    ensures SumAll(xs, term).Success? <==> forall i :: 0 <= i < |xs| ==> term(xs[i]).Success?
    ensures SumAll(xs, term).Success? ==> SumAll(xs, term).value == SumOf(xs, w)
  {
    if xs != [] {
      var init := xs[..|xs| - 1];
      SumAllSuccess(init, term, w);
      assert forall i :: 0 <= i < |init| ==> init[i] == xs[i];
    }
  }

  /** A failed sum reports the error of its first failing term. */
  lemma {:induction false} SumAllFailure<T, E>(xs: seq<T>, term: T -> Result<int, E>)
    requires SumAll(xs, term).Failure?
    ensures exists i :: 0 <= i < |xs| && term(xs[i]) == Failure(SumAll(xs, term).error)
                        && forall j :: 0 <= j < i ==> term(xs[j]).Success?
  {
    var init := xs[..|xs| - 1];
    if SumAll(init, term).Failure? {
      SumAllFailure(init, term);
      var i :| 0 <= i < |init| && term(init[i]) == Failure(SumAll(init, term).error)
                && forall j :: 0 <= j < i ==> term(init[j]).Success?;
      assert xs[i] == init[i];
      assert forall j :: 0 <= j < i ==> xs[j] == init[j];
    } else {
      SumAllSuccess(init, term, x => if term(x).Success? then term(x).value else 0);
      var i := |xs| - 1;
      assert forall j :: 0 <= j < i ==> xs[j] == init[j];
    }
  }

  /** Summing a concatenation: the first part's failure, else the second part's, else the sum of both. */
  lemma {:induction false} SumAllAppend<T, E>(a: seq<T>, b: seq<T>, term: T -> Result<int, E>)
    ensures SumAll(a + b, term) ==
      match SumAll(a, term)
      case Failure(e) => Failure(e)
      case Success(x) =>
        match SumAll(b, term)
        case Failure(e) => Failure(e)
        case Success(y) => Success(x + y)
  {
    if b == [] {
      assert a + b == a;
    } else {
      var ab := a + b;
      SumAllAppend(a, b[..|b| - 1], term);
      assert ab[..|ab| - 1] == a + b[..|b| - 1];
      assert ab[|ab| - 1] == b[|b| - 1];
    }
  }

  /** Two completed sums add up over the concatenation. */
  lemma SumAllConcat<T, E>(a: seq<T>, b: seq<T>, term: T -> Result<int, E>, x: int, y: int)
    requires SumAll(a, term) == Success(x) && SumAll(b, term) == Success(y)
    ensures SumAll(a + b, term) == Success(x + y)
  {
    SumAllAppend(a, b, term);
  }

  /** Once a prefix has failed, the later steps never run. */
  lemma {:induction false} RunAllStops<T, R, E>(xs: seq<T>, n: nat, step: (nat, T) -> Result<R, E>)
    requires n <= |xs| && RunAll(xs[..n], step).Failure?
    ensures RunAll(xs, step) == RunAll(xs[..n], step)
  {
    if n < |xs| {
      assert xs[..|xs| - 1][..n] == xs[..n];
      RunAllStops(xs[..|xs| - 1], n, step);
    } else {
      assert xs[..n] == xs;
    }
  }
}
