/** Failure-compatible wrappers used by every other module of the model. */
module Wrappers {

  /** A value that may be missing: Python's `None` versus a present value. */
  datatype Option<+T> = None | Some(value: T)

  /** The outcome of an operation that either returns a value or raises an error. */
  datatype Result<+T, +E> = Ok(value: T) | Err(error: E) {

    predicate IsFailure() {
      Err?
    }

    function PropagateFailure<U>(): Result<U, E>
      requires Err?
    {
      Err(error)
    }

    function Extract(): T
      requires Ok?
    {
      value
    }
  }

  /** `f` of every item in turn, stopping at the first error. */
  function MapResults<T, U, E>(xs: seq<T>, f: T -> Result<U, E>): (r: Result<seq<U>, E>)
    ensures r.Ok? <==> forall i :: 0 <= i < |xs| ==> f(xs[i]).Ok?
    ensures r.Ok? ==> |r.value| == |xs| && forall i :: 0 <= i < |xs| ==> r.value[i] == f(xs[i]).value
    ensures r.Err? ==> exists i :: (0 <= i < |xs| && f(xs[i]).Err? &&
                                    (forall j :: 0 <= j < i ==> f(xs[j]).Ok?) && r == Err(f(xs[i]).error))
  {
    if |xs| == 0 then Ok([])
    else
      assert forall i :: 1 <= i < |xs| ==> xs[1..][i - 1] == xs[i];
      match f(xs[0])
      case Err(e) => Err(e)
      case Ok(first) =>
        match MapResults(xs[1..], f)
        case Err(e) =>
          assert exists i :: (0 <= i < |xs| && f(xs[i]).Err? &&
                              (forall j :: 0 <= j < i ==> f(xs[j]).Ok?) && e == f(xs[i]).error) by {
            var k :| 0 <= k < |xs| - 1 && f(xs[1..][k]).Err? &&
              (forall j :: 0 <= j < k ==> f(xs[1..][j]).Ok?) && e == f(xs[1..][k]).error;
            forall j | 0 <= j < k + 1
              ensures f(xs[j]).Ok?
            {
              if j > 0 {
                assert xs[1..][j - 1] == xs[j];
              }
            }
          }
          Err(e)
        case Ok(rest) => Ok([first] + rest)
  }
}
