/** Outcomes of the Python code being modelled: a value, or the exception that
    the code raises (or a loop that never ends). */
module Py {

  /** The exceptions the configuration scripts can raise on the paths modelled
      here, plus `Diverges` for a `while` loop whose state stops changing. */
  datatype PyError =
    | IndexError
    | KeyError(key: string)
    | TypeError
    | ValueError
    | NameError(name: string)
    | UnboundLocalError(name: string)
    | AttributeError(attr: string)
    | IOError(path: string)
    | Diverges

  datatype Result<+T> = Ok(value: T) | Err(error: PyError)
  {
    predicate IsFailure() { Err? }

    function PropagateFailure<U>(): Result<U>
      requires Err?
    {
      Err(error)
    }

    function Extract(): T
      requires Ok?
    {
      value
    }
  }

  datatype Option<+T> = None | Some(value: T)

  /** A loop that appends each outcome's value and stops at the first
      exception. */
  function AllOk<T>(results: seq<Result<T>>): Result<seq<T>>
    decreases |results|
  {
    if results == [] then Ok([])
    else
      var init :- AllOk(results[..|results| - 1]);
      var last :- results[|results| - 1];
      Ok(init + [last])
  }

  /** The loop succeeds iff every step does, and then keeps every value in
      order; otherwise it raises some step's exception. */
  lemma {:induction false} AllOkSpec<T>(results: seq<Result<T>>)
    ensures AllOk(results).Ok? <==> forall i :: 0 <= i < |results| ==> results[i].Ok?
    ensures AllOk(results).Ok? ==>
              |AllOk(results).value| == |results| &&
              forall i :: 0 <= i < |results| ==> results[i] == Ok(AllOk(results).value[i])
    ensures AllOk(results).Err? ==>
              exists i :: 0 <= i < |results| && results[i] == Err(AllOk(results).error)
    decreases |results|
  {
    if results != [] {
      var n := |results| - 1;
      var init := results[..n];
      AllOkSpec(init);
      assert forall i :: 0 <= i < n ==> init[i] == results[i];
      if AllOk(init).Err? {
        var i :| 0 <= i < n && init[i] == Err(AllOk(init).error);
        assert results[i] == Err(AllOk(results).error);
      }
    }
  }

  /** One more successful step appends its value. */
  lemma AllOkSnoc<T>(results: seq<Result<T>>, i: nat)
    requires i < |results| && AllOk(results[..i]).Ok? && results[i].Ok?
    ensures AllOk(results[..i + 1]) == Ok(AllOk(results[..i]).value + [results[i].value])
  {
    assert results[..i + 1][..i] == results[..i];
  }

  /** A failing step decides the outcome of the whole loop. */
  lemma {:induction false} AllOkErrAt<T>(results: seq<Result<T>>, i: nat)
    requires i < |results| && AllOk(results[..i]).Ok? && results[i].Err?
    ensures AllOk(results) == Err(results[i].error)
    decreases |results|
  {
    var n := |results| - 1;
    assert results[..n + 1] == results;
    if n == i {
      assert results[..n] == results[..i];
    } else {
      assert results[..n][..i] == results[..i];
      AllOkErrAt(results[..n], i);
    }
  }

  /** Python truthiness of an optional string: `None` and `''` are false. */
  predicate Truthy(s: Option<string>)
  {
    s.Some? && s.value != ""
  }
}
