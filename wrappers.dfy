/** Failure-compatible wrappers shared by every module of the model. */
module Wrappers {

  datatype Option<+T> = None | Some(value: T)

  /** The outcome of a fallible operation: Rust's `Result<T, E>`. */
  datatype Result<+T, +E> = Ok(value: T) | Err(error: E) {

    predicate IsFailure() {
      Err?
    }

    function PropagateFailure<U>(): Result<U, E>
      requires Err?
    {
      Err(error)
    }

    function Extract(): T
      requires Ok?
    {
      value
    }
  }

  /** `xs` put in front of a successful list; a failure passes through. */
  function Prepend<T, E>(xs: seq<T>, r: Result<seq<T>, E>): Result<seq<T>, E> {
    if r.Ok? then Ok(xs + r.value) else r
  }

  lemma PrependPrepend<T, E>(xs: seq<T>, ys: seq<T>, r: Result<seq<T>, E>)
    ensures Prepend(xs, Prepend(ys, r)) == Prepend(xs + ys, r)
  {
    if r.Ok? {
      assert xs + (ys + r.value) == (xs + ys) + r.value;
    }
  }

  /** Updating index `k` of `xs` splits it into the part before `k`, the new element, and the rest. */
  lemma UpdateSplit<T>(xs: seq<T>, k: nat, x: T)
    requires k < |xs|
    ensures xs[k := x][..k + 1] == xs[..k] + [x] && xs[k := x][k + 1..] == xs[k + 1..]
  {
  }

  /** An element of `xs` on which `f` fails. */
  ghost function Failing<T, U, E>(f: T -> Result<U, E>, xs: seq<T>): (k: nat)
    requires exists k :: 0 <= k < |xs| && f(xs[k]).Err?
    ensures k < |xs| && f(xs[k]).Err?
  {
    var k :| 0 <= k < |xs| && f(xs[k]).Err?; k
  }

  /**
   * `f` applied to every element in order, as a `collect` into a
   * `Result<Vec<_>, _>` or a loop of `?`s does: the first failure is the
   * outcome of the whole.
   */
  function MapAll<T, U, E>(f: T -> Result<U, E>, xs: seq<T>): (r: Result<seq<U>, E>)
    ensures r.Ok? <==> forall k :: 0 <= k < |xs| ==> f(xs[k]).Ok?
    ensures r.Ok? ==> |r.value| == |xs| && forall k :: 0 <= k < |xs| ==> f(xs[k]) == Ok(r.value[k])
  {
    if xs == [] then Ok([])
    else
      var y := f(xs[0]);
      if y.Err? then Err(y.error)
      else
        var rest := MapAll(f, xs[1..]);
        if rest.Err? then
          assert f(xs[1..][Failing(f, xs[1..])]).Err?;
          Err(rest.error)
        else
          assert forall k :: 0 <= k < |xs| - 1 ==> xs[k + 1] == xs[1..][k];
          Ok([y.value] + rest.value)
  }

  /** A failure is the failure of the first element on which `f` fails. */
  lemma {:induction false} MapAllFirstError<T, U, E>(f: T -> Result<U, E>, xs: seq<T>, k: nat)
    requires k < |xs| && f(xs[k]).Err?
    requires forall j :: 0 <= j < k ==> f(xs[j]).Ok?
    ensures MapAll(f, xs) == Err(f(xs[k]).error)
  {
    if k > 0 {
      var rest := xs[1..];
      assert rest[k - 1] == xs[k];
      forall j | 0 <= j < k - 1 ensures f(rest[j]).Ok? {
        assert rest[j] == xs[j + 1];
      }
      MapAllFirstError(f, rest, k - 1);
      assert f(xs[0]).Ok?;
    }
  }

  /** One element done: the loop invariant of a push loop that stops at the first failure. */
  lemma MapAllStep<T, U, E>(f: T -> Result<U, E>, xs: seq<T>, k: nat, done: seq<U>, y: U)
    requires k < |xs| && f(xs[k]) == Ok(y)
    ensures Prepend(done, MapAll(f, xs[k..])) == Prepend(done + [y], MapAll(f, xs[k + 1..]))
  {
    assert xs[k..][0] == xs[k] && xs[k..][1..] == xs[k + 1..];
    PrependPrepend(done, [y], MapAll(f, xs[k + 1..]));
  }

  lemma MapAllSingle<T, U, E>(f: T -> Result<U, E>, x: T)
    ensures MapAll(f, [x]) == if f(x).Ok? then Ok([f(x).value]) else Err(f(x).error)
  {
    assert [x][1..] == [];
    if f(x).Ok? {
      assert [f(x).value] + [] == [f(x).value];
    }
  }
}
