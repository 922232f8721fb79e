/** Exceptions raised by the modelled code, and the result type that carries them. */
module Wrappers {

  /** The Python (or JavaScript) exception classes the modelled code raises. */
  datatype Exc =
    | ValueError(msg: string)
    | KeyError(key: string)
    | TypeError(msg: string)
    | IndexError
    | AttributeError(name: string)
    | NameError(name: string)
    | ZeroDivisionError
    /** `packaging.version.InvalidVersion`, a ValueError raised for a text that is no version. */
    | InvalidVersion(text: string)

  /** Either the value a call returns or the exception it raises. */
  datatype Result<+T> = Ok(value: T) | Fail(exc: Exc) {

    predicate IsFailure() {
      Fail?
    }

    function PropagateFailure<U>(): Result<U>
      requires Fail?
    {
      Fail(exc)
    }

    function Extract(): T
      requires Ok?
    {
      value
    }
  }

  datatype Option<+T> = None | Some(value: T)

  /** `f` applied to each element in order, as a loop that stops at the first
      exception. */
  function MapAll<A, B>(xs: seq<A>, f: A -> Result<B>): (r: Result<seq<B>>)
    ensures r.Ok? <==> forall i :: 0 <= i < |xs| ==> f(xs[i]).Ok?
    ensures r.Ok? ==> |r.value| == |xs| && forall i :: 0 <= i < |xs| ==> r.value[i] == f(xs[i]).value
  {
    if xs == [] then Ok([])
    else
      var n := |xs| - 1;
      assert forall i :: 0 <= i < n ==> xs[..n][i] == xs[i];
      var init :- MapAll(xs[..n], f);
      var last :- f(xs[n]);
      Ok(init + [last])
  }

  lemma MapAllSnoc<A, B>(xs: seq<A>, f: A -> Result<B>, i: nat, init: seq<B>)
    requires i < |xs| && MapAll(xs[..i], f) == Ok(init) && f(xs[i]).Ok?
    ensures MapAll(xs[..i + 1], f) == Ok(init + [f(xs[i]).value])
  {
    assert xs[..i + 1][..i] == xs[..i];
  }

  /** The first exception, after earlier elements succeeded, is the exception of the
      whole loop. */
  lemma {:induction false} MapAllFailFrom<A, B>(xs: seq<A>, f: A -> Result<B>, i: nat)
    requires i < |xs| && MapAll(xs[..i], f).Ok? && f(xs[i]).Fail?
    ensures MapAll(xs, f) == Fail(f(xs[i]).exc)
    decreases |xs|
  {
    if i < |xs| - 1 {
      assert xs[..|xs| - 1][..i] == xs[..i];
      MapAllFailFrom(xs[..|xs| - 1], f, i);
    } else {
      assert xs[..|xs| - 1] == xs[..i];
    }
  }
}
