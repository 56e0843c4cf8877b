/** Failure-carrying results. A Python exception raised by the modelled code
    becomes an `Err` whose `Error` names the exception class. */
module Wrappers {

  datatype Option<+T> = None | Some(value: T)

  /** The Python exception classes the modelled code raises. */
  datatype Error =
    | ValueError
    | TypeError
    | AttributeError
    | KeyError
    | IndexError
    | StopIteration
    | ZeroDivisionError

  /** The outcome of a call that returns `None` in Python or raises. */
  datatype Outcome = Pass | Fail(error: Error)

  datatype Result<+T> = Ok(value: T) | Err(error: Error) {
    predicate IsFailure() { Err? }

    function PropagateFailure<U>(): Result<U>
      requires Err?
    {
      Err(error)
    }

    function Extract(): T
      requires Ok?
    {
      value
    }
  }

  /** Applies `f` to every element in order, stopping at the first error. */
  function MapResults<A, B>(xs: seq<A>, f: A -> Result<B>): (r: Result<seq<B>>)
    ensures r.Ok? <==> forall k :: 0 <= k < |xs| ==> f(xs[k]).Ok?
    ensures r.Ok? ==> |r.value| == |xs| && forall k :: 0 <= k < |xs| ==> f(xs[k]) == Ok(r.value[k])
    ensures r.Err? ==> exists k :: 0 <= k < |xs| && f(xs[k]) == Err(r.error) &&
                                   forall j :: 0 <= j < k ==> f(xs[j]).Ok?
  {
    if xs == [] then Ok([])
    else match f(xs[0])
      case Err(e) => Err(e)
      case Ok(y) =>
        var rest := MapResults(xs[1..], f);
        assert forall k :: 1 <= k < |xs| ==> xs[k] == xs[1..][k - 1];
        match rest
        case Err(e) =>
          var k :| 0 <= k < |xs[1..]| && f(xs[1..][k]) == Err(e) && forall j :: 0 <= j < k ==> f(xs[1..][j]).Ok?;
          assert f(xs[k + 1]) == Err(e) && forall j :: 0 <= j < k + 1 ==> f(xs[j]).Ok?;
          Err(e)
        case Ok(ys) => Ok([y] + ys)
  }
}
