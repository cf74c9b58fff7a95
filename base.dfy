/** Option and Result: the two failure-carrying values the rest of the model uses.
    Result stands for a Python call that either returns a value or raises; its
    message names the exception. Both support `:-`. */
module Base {

  datatype Option<+T> = None | Some(value: T) {
    function GetOr(default: T): T {
      match this
      case Some(v) => v
      case None => default
    }
  }

  datatype Result<+T> = Ok(value: T) | Err(msg: string) {
    predicate IsFailure() {
      Err?
    }

    function PropagateFailure<U>(): Result<U>
      requires Err?
    {
      Err(msg)
    }

    function Extract(): T
      requires Ok?
    {
      value
    }
  }

  /** Applies `f` to each element in order, as a loop that stops at the first
      exception: the results, or the first failure. */
  function MapResult<T, U(==)>(f: T -> Result<U>, xs: seq<T>): (r: Result<seq<U>>)
    ensures r.Ok? ==> |r.value| == |xs| && forall i :: 0 <= i < |xs| ==> f(xs[i]) == Ok(r.value[i])
    ensures r.Err? ==> exists i :: 0 <= i < |xs| && f(xs[i]) == Err(r.msg) && forall k :: 0 <= k < i ==> f(xs[k]).Ok?
    decreases |xs|
  {
    if xs == [] then Ok([])
    else
      var init :- MapResult(f, xs[..|xs| - 1]);
      assert forall i :: 0 <= i < |xs| - 1 ==> xs[..|xs| - 1][i] == xs[i];
      var last :- f(xs[|xs| - 1]);
      Ok(init + [last])
  }

  /** One more element: the run over `xs[..i + 1]` extends the run over `xs[..i]`,
      or the whole run stops with the new element's failure. */
  lemma MapResultSnoc<T, U>(f: T -> Result<U>, xs: seq<T>, i: nat, done: seq<U>)
    requires i < |xs| && MapResult(f, xs[..i]) == Ok(done)
    ensures f(xs[i]).Ok? ==> MapResult(f, xs[..i + 1]) == Ok(done + [f(xs[i]).value])
    ensures f(xs[i]).Err? ==> MapResult(f, xs) == Err(f(xs[i]).msg)
  {
    assert xs[..i + 1][..i] == xs[..i];
    if f(xs[i]).Err? {
      MapResultStops(f, xs, i + 1);
    }
  }

  /** Once a prefix fails, the whole run fails with the same message. */
  lemma {:induction false} MapResultStops<T, U>(f: T -> Result<U>, xs: seq<T>, n: nat)
    requires n <= |xs| && MapResult(f, xs[..n]).Err?
    ensures MapResult(f, xs) == MapResult(f, xs[..n])
    decreases |xs| - n
  {
    if n < |xs| {
      assert xs[..n + 1][..n] == xs[..n];
      MapResultStops(f, xs, n + 1);
    } else {
      assert xs[..n] == xs;
    }
  }
}
