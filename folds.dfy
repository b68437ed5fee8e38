/**
 * The shape shared by the source's `for` loops that bail out with `?`: a left fold
 * over a sequence that stops at the first failing step.
 */
module Folds {
  import opened Wrappers

  /** Folds `step` over `xs` from the left; the first `Failure` is the result. */
  function Fold<T, S, E>(xs: seq<T>, init: S, step: (S, T) -> Result<S, E>): Result<S, E>
    decreases |xs|
  {
    if xs == [] then Success(init)
    else
      match Fold(xs[..|xs| - 1], init, step)
      case Failure(e) => Failure(e)
      case Success(acc) => step(acc, xs[|xs| - 1])
  }

  /** One more iteration of the loop: the fold over `xs[..i + 1]` in terms of the fold over `xs[..i]`. */
  lemma FoldStep<T, S, E>(xs: seq<T>, i: nat, init: S, step: (S, T) -> Result<S, E>)
    requires i < |xs|
    ensures Fold(xs[..i + 1], init, step) ==
            match Fold(xs[..i], init, step)
            case Failure(e) => Failure(e)
            case Success(acc) => step(acc, xs[i])
  {
    assert xs[..i + 1][..i] == xs[..i];
  }

  /** Once a prefix has failed, the whole fold fails with the same error (the early `return`). */
  lemma {:induction false} FoldFailureSticks<T, S, E>(xs: seq<T>, i: nat, init: S, step: (S, T) -> Result<S, E>)
    requires i <= |xs|
    requires Fold(xs[..i], init, step).Failure?
    ensures Fold(xs, init, step) == Fold(xs[..i], init, step)
    decreases |xs| - i
  {
    if i < |xs| {
      FoldStep(xs, i, init, step);
      FoldFailureSticks(xs, i + 1, init, step);
    } else {
      assert xs[..i] == xs;
    }
  }

  /** The fold over the whole sequence is the fold over its full prefix (closes a loop). */
  lemma FoldWhole<T, S, E>(xs: seq<T>, init: S, step: (S, T) -> Result<S, E>)
    ensures Fold(xs[..|xs|], init, step) == Fold(xs, init, step)
  {
    assert xs[..|xs|] == xs;
  }

  /** A failed fold fails at some element after a successful prefix, with that step's error. */
  lemma {:induction false} FoldFailureFrom<T, S, E>(xs: seq<T>, init: S, step: (S, T) -> Result<S, E>)
    requires Fold(xs, init, step).Failure?
    ensures exists i :: 0 <= i < |xs| && Fold(xs[..i], init, step).Success?
                        && step(Fold(xs[..i], init, step).value, xs[i]) == Fold(xs, init, step)
    decreases |xs|
  {
    var n := |xs| - 1;
    var prefix := xs[..n];
    if Fold(prefix, init, step).Failure? {
      FoldFailureFrom(prefix, init, step);
      var i :| 0 <= i < |prefix| && Fold(prefix[..i], init, step).Success?
               && step(Fold(prefix[..i], init, step).value, prefix[i]) == Fold(prefix, init, step);
      assert prefix[..i] == xs[..i] && prefix[i] == xs[i];
    }
  }

  /** The hypothesis of `FoldSucceedsIff`, instantiated at one step. */
  lemma StepVerdict<T, S, E>(acc: S, x: T, step: (S, T) -> Result<S, E>, ok: T -> bool)
    requires forall a, y :: step(a, y).Failure? <==> !ok(y)
    ensures step(acc, x).Failure? <==> !ok(x)
  {
  }

  /**
   * When whether a step fails depends only on the element, the fold succeeds exactly when
   * every element passes.
   */
  lemma {:induction false} FoldSucceedsIff<T, S, E>(xs: seq<T>, init: S, step: (S, T) -> Result<S, E>, ok: T -> bool)
    requires forall a, y :: step(a, y).Failure? <==> !ok(y)
    ensures Fold(xs, init, step).Success? <==> forall i :: 0 <= i < |xs| ==> ok(xs[i])
    decreases |xs|
  {
    if xs != [] {
      var n := |xs| - 1;
      var prefix := xs[..n];
      FoldSucceedsIff(prefix, init, step, ok);
      assert forall i :: 0 <= i < n ==> prefix[i] == xs[i];
      if Fold(prefix, init, step).Success? {
        StepVerdict(Fold(prefix, init, step).value, xs[n], step, ok);
      }
    }
  }

  /** The values of steps that all succeed, in order: what a loop doing `f(x)?` per element sees. */
  function Values<T, S, E>(xs: seq<T>, f: T -> Result<S, E>): (r: seq<S>)
    requires forall i :: 0 <= i < |xs| ==> f(xs[i]).Success?
    ensures |r| == |xs|
    decreases |xs|
  {
    if xs == [] then []
    else
      var n := |xs| - 1;
      assert forall i :: 0 <= i < n ==> xs[..n][i] == xs[i];
      Values(xs[..n], f) + [f(xs[n]).value]
  }

  /** Entry `i` is the value of `f` at element `i`. */
  lemma {:induction false} ValuesAt<T, S, E>(xs: seq<T>, f: T -> Result<S, E>, i: nat)
    requires forall j :: 0 <= j < |xs| ==> f(xs[j]).Success?
    requires i < |xs|
    ensures Values(xs, f)[i] == f(xs[i]).value
    decreases |xs|
  {
    var n := |xs| - 1;
    if i < n {
      var prefix := xs[..n];
      assert forall j :: 0 <= j < n ==> prefix[j] == xs[j];
      ValuesAt(prefix, f, i);
    }
  }
}
