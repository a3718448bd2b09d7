/** Small failure-carrying datatypes shared by every layer, and the
    fail-fast traversal that both multi-record reads of the store use. */
module Wrappers {

  datatype Option<+T> = None | Some(value: T)

  datatype Result<+T, +E> = Ok(value: T) | Err(error: E)

  /** Puts `xs` in front of a successful list; passes an error through. */
  function Prepend<T, E>(xs: seq<T>, r: Result<seq<T>, E>): Result<seq<T>, E>
  {
    match r
    case Ok(ys) => Ok(xs + ys)
    case Err(e) => Err(e)
  }

  lemma PrependNothing<T, E>(r: Result<seq<T>, E>)
    ensures Prepend([], r) == r
  {
    if r.Ok? {
      assert [] + r.value == r.value;
    }
  }

  lemma PrependAppend<T, E>(xs: seq<T>, y: T, r: Result<seq<T>, E>)
    ensures Prepend(xs + [y], r) == Prepend(xs, Prepend([y], r))
  {
    if r.Ok? {
      assert xs + [y] + r.value == xs + ([y] + r.value);
    }
  }

  /** Applies `f` to each element in order and stops at the first error,
      returning that error and nothing else (no partial list). */
  function CollectAll<T, U, E>(xs: seq<T>, f: T -> Result<U, E>): Result<seq<U>, E>
    decreases |xs|
  {
    if xs == [] then Ok([])
    else
      match f(xs[0])
      case Err(e) => Err(e)
      case Ok(y) => Prepend([y], CollectAll(xs[1..], f))
  }

  /** CollectAll succeeds exactly when every application does, and then holds
      the results in order; otherwise it fails with the first error. */
  lemma {:induction false} CollectAllMeaning<T, U, E>(xs: seq<T>, f: T -> Result<U, E>)
    ensures var r := CollectAll(xs, f);
      && (r.Ok? <==> forall i :: 0 <= i < |xs| ==> f(xs[i]).Ok?)
      && (r.Ok? ==> |r.value| == |xs| && forall i :: 0 <= i < |xs| ==> f(xs[i]) == Ok(r.value[i]))
      && (r.Err? ==> exists k :: 0 <= k < |xs| && f(xs[k]) == Err(r.error) &&
                                 forall j :: 0 <= j < k ==> f(xs[j]).Ok?)
    decreases |xs|
  {
    if xs != [] {
      var rest := xs[1..];
      CollectAllMeaning(rest, f);
      assert forall i :: 1 <= i < |xs| ==> rest[i - 1] == xs[i];
      var r := CollectAll(rest, f);
      if f(xs[0]).Ok? && r.Err? {
        var k :| 0 <= k < |rest| && f(rest[k]) == Err(r.error) &&
                 forall j :: 0 <= j < k ==> f(rest[j]).Ok?;
        assert f(xs[k + 1]) == Err(r.error);
      }
    }
  }

  /** The error CollectAll reports is that of the first failing element. */
  lemma {:induction false} CollectAllFirstError<T, U, E>(xs: seq<T>, f: T -> Result<U, E>, k: nat)
    requires k < |xs| && f(xs[k]).Err?
    requires forall j :: 0 <= j < k ==> f(xs[j]).Ok?
    ensures CollectAll(xs, f) == Err(f(xs[k]).error)
    decreases k
  {
    if k > 0 {
      var rest := xs[1..];
      assert rest[k - 1] == xs[k];
      assert forall j :: 0 <= j < k - 1 ==> rest[j] == xs[j + 1];
      CollectAllFirstError(rest, f, k - 1);
    }
  }
}
