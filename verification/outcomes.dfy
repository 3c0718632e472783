/** Success-or-error values shared by every module of the model.
    `Error` names the kind of exception the original code raises; the model
    returns it instead of throwing. */
module Outcomes {

  datatype Error =
    | DimensionMismatch   // shapes of matrices or vectors do not fit the operation
    | InvalidArgument     // out-of-range rate, threshold or mutation bounds; malformed layer
    | ConvergenceFailure  // batch training used up its pass budget
    | IndexOutOfRange     // an array or list index outside its bounds
    | NullReference       // a member access through a null reference
    | DivideByZero        // integer remainder by zero
    | Overflow            // an array allocated with a negative length

  /** The value of an operation that may fail; usable with `:-`. */
  datatype Result<+T> = Ok(value: T) | Err(error: Error) {

    predicate IsFailure() {
      Err?
    }

    function PropagateFailure<U>(): Result<U>
      requires Err?
    {
      Err(error)
    }

    function Extract(): T
      requires Ok?
    {
      value
    }
  }

  /** A value that may be absent: the model of a nullable reference. */
  datatype Option<+T> = None | Some(value: T)

  /** f applied to every element in order; the first failure is passed on. */
  function MapOk<T, U>(f: T -> Result<U>, xs: seq<T>): (r: Result<seq<U>>)
    ensures r.Ok? <==> forall i :: 0 <= i < |xs| ==> f(xs[i]).Ok?
    ensures r.Ok? ==> |r.value| == |xs| && forall i :: 0 <= i < |xs| ==> f(xs[i]) == Ok(r.value[i])
    decreases |xs|
  {
    if |xs| == 0 then Ok([])
    else
      var init := xs[..|xs| - 1];
      assert forall i :: 0 <= i < |xs| - 1 ==> init[i] == xs[i];
      var vs :- MapOk(f, init);
      var v :- f(xs[|xs| - 1]);
      var all := vs + [v];
      assert forall i :: 0 <= i < |xs| - 1 ==> all[i] == vs[i];
      assert all[|xs| - 1] == v;
      Ok(all)
  }
}
