/** Failure-compatible wrappers, and the exceptions the modelled code raises. */
module Wrappers {

  datatype Option<+T> = None | Some(value: T)

  /** The exception classes the modelled code can raise, with what identifies the failure. */
  datatype PyError =
    | KeyError(key: string)
    | IndexError(what: string)
    | ValueError(text: string)
    | TypeError(what: string)
    | AttributeError(name: string)
    | ZeroDivisionError
    | AssertionError(what: string)
    | UnboundLocalError(name: string)
      /** `raise Exception(...)` for a file that is not present */
    | MissingFile(what: string)

  /** The outcome of a call that can raise: its value, or the exception. */
  datatype Result<+T> = Ok(value: T) | Err(error: PyError) {

    predicate IsFailure() {
      Err?
    }

    function PropagateFailure<U>(): Result<U>
      requires Err?
    {
      Err(error)
    }

    function Extract(): T
      requires Ok?
    {
      value
    }
  }

  /** `f` applied to each element in turn, stopping at the first that fails: a loop that raises. */
  function MapAll<A, B>(xs: seq<A>, f: A -> Result<B>): (r: Result<seq<B>>)
    ensures r.Ok? ==> |r.value| == |xs|
  {
    if |xs| == 0 then Ok([])
    else
      var done :- MapAll(xs[..|xs| - 1], f);
      var y :- f(xs[|xs| - 1]);
      Ok(done + [y])
  }

  /** Success gives each element's image in order; failure is the error of the first element that fails. */
  lemma {:induction false} MapAllEach<A, B>(xs: seq<A>, f: A -> Result<B>)
    ensures var r := MapAll(xs, f);
      (r.Ok? ==> forall i :: 0 <= i < |xs| ==> f(xs[i]) == Ok(r.value[i])) &&
      (r.Err? ==> exists i :: 0 <= i < |xs| && f(xs[i]) == Err(r.error) && forall j :: 0 <= j < i ==> f(xs[j]).Ok?)
  {
    if |xs| > 0 {
      var n := |xs| - 1;
      var init := xs[..n];
      MapAllEach(init, f);
      assert forall i :: 0 <= i < n ==> init[i] == xs[i];
    }
  }

  /** Once a prefix fails, the whole sequence fails the same way. */
  lemma {:induction false} MapAllPrefixErr<A, B>(xs: seq<A>, f: A -> Result<B>, i: nat)
    requires i <= |xs| && MapAll(xs[..i], f).Err?
    ensures MapAll(xs, f) == MapAll(xs[..i], f)
    decreases |xs| - i
  {
    if i < |xs| {
      assert xs[..i + 1][..i] == xs[..i];
      MapAllPrefixErr(xs, f, i + 1);
    } else {
      assert xs[..i] == xs;
    }
  }

  /** One more turn of the loop: the next element's failure ends it, its success extends the images. */
  lemma MapAllNext<A, B>(xs: seq<A>, f: A -> Result<B>, i: nat, ys: seq<B>)
    requires i < |xs| && MapAll(xs[..i], f) == Ok(ys)
    ensures f(xs[i]).Err? ==> MapAll(xs, f) == Err(f(xs[i]).error)
    ensures f(xs[i]).Ok? ==> MapAll(xs[..i + 1], f) == Ok(ys + [f(xs[i]).value])
  {
    assert xs[..i + 1][..i] == xs[..i];
    if f(xs[i]).Err? {
      MapAllPrefixErr(xs, f, i + 1);
    }
  }

  /** One more element: it is mapped after all the ones before it, and only when they all succeed. */
  lemma MapAllSnoc<A, B>(xs: seq<A>, x: A, f: A -> Result<B>)
    ensures MapAll(xs + [x], f).Ok? ==> MapAll(xs, f).Ok? && f(x).Ok?
    ensures MapAll(xs, f).Err? ==> MapAll(xs + [x], f) == MapAll(xs, f)
    ensures MapAll(xs, f).Ok? && f(x).Err? ==> MapAll(xs + [x], f) == Err(f(x).error)
    ensures MapAll(xs, f).Ok? && f(x).Ok? ==> MapAll(xs + [x], f) == Ok(MapAll(xs, f).value + [f(x).value])
  {
    assert (xs + [x])[..|xs|] == xs;
  }

  /** `f` applied to each element in turn on a running state, stopping at the first that fails: a loop that updates state and raises. */
  function Thread<S, A>(xs: seq<A>, s: S, f: (S, A) -> Result<S>): Result<S> {
    if |xs| == 0 then Ok(s)
    else
      var done :- Thread(xs[..|xs| - 1], s, f);
      f(done, xs[|xs| - 1])
  }

  /** Once a prefix fails, the whole sequence fails the same way. */
  lemma {:induction false} ThreadPrefixErr<S, A>(xs: seq<A>, s: S, f: (S, A) -> Result<S>, i: nat)
    requires i <= |xs| && Thread(xs[..i], s, f).Err?
    ensures Thread(xs, s, f) == Thread(xs[..i], s, f)
    decreases |xs| - i
  {
    if i < |xs| {
      assert xs[..i + 1][..i] == xs[..i];
      ThreadPrefixErr(xs, s, f, i + 1);
    } else {
      assert xs[..i] == xs;
    }
  }

  /** One more turn of the loop: the next element's step on the state reached, whose failure ends the loop. */
  lemma ThreadNext<S, A>(xs: seq<A>, s: S, f: (S, A) -> Result<S>, i: nat, t: S)
    requires i < |xs| && Thread(xs[..i], s, f) == Ok(t)
    ensures Thread(xs[..i + 1], s, f) == f(t, xs[i])
    ensures f(t, xs[i]).Err? ==> Thread(xs, s, f) == f(t, xs[i])
  {
    assert xs[..i + 1][..i] == xs[..i];
    if f(t, xs[i]).Err? {
      ThreadPrefixErr(xs, s, f, i + 1);
    }
  }
}
