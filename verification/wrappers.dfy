/** Option and error-carrying result types shared by every module of the model. */
module Wrappers {

  datatype Option<+T> = None | Some(value: T) {
    function GetOr(default: T): T {
      match this
      case Some(v) => v
      case None => default
    }
  }

  /** The errors the simulation core throws, plus the JavaScript runtime
      `TypeError` raised when code dereferences a missing component. */
  datatype Error =
    | MissingComponentError(entity: int)
    | MissingEntityError(id: int)
    | NegativeBudget(money: real)
    | InsufficientMoney(value: real, money: real)
    | TypeError
    | OutOfFuel

  datatype Result<+T> = Success(value: T) | Failure(error: Error) {
    predicate IsFailure() { Failure? }

    function PropagateFailure<U>(): Result<U>
      requires Failure?
    {
      Failure(error)
    }

    function Extract(): T
      requires Success?
    {
      value
    }
  }

  /** A run of steps that may each throw, in order: the values of all of
      them, or the error of the first that throws. */
  function Collect<T>(rs: seq<Result<T>>): (r: Result<seq<T>>)
    ensures r.Success? <==> forall i :: 0 <= i < |rs| ==> rs[i].Success?
    ensures r.Success? ==> |r.value| == |rs| && forall i :: 0 <= i < |rs| ==> r.value[i] == rs[i].value
    ensures r.Failure? ==> exists i :: 0 <= i < |rs| && rs[i] == Failure(r.error) && forall j :: 0 <= j < i ==> rs[j].Success?
  {
    if |rs| == 0 then Success([])
    else if rs[0].Failure? then Failure(rs[0].error)
    else
      var rest := Collect(rs[1..]);
      assert forall i :: 1 <= i < |rs| ==> rs[1..][i - 1] == rs[i];
      if rest.Failure? then
        var k :| 0 <= k < |rs| - 1 && rs[1..][k] == Failure(rest.error) && forall j :: 0 <= j < k ==> rs[1..][j].Success?;
        assert rs[k + 1] == Failure(rest.error);
        Failure(rest.error)
      else Success([rs[0].value] + rest.value)
  }
}
