/** Optional values, outcomes that are either a value or an error, and the
    loop that applies a fallible step to each element in turn. */
module Wrappers {

  datatype Option<T> = None | Some(value: T)

  datatype Result<T, E> = Ok(value: T) | Err(error: E)
  {
    predicate IsFailure()
    {
      Err?
    }

    function PropagateFailure<U>(): Result<U, E>
      requires Err?
    {
      Err(error)
    }

    function Extract(): T
      requires Ok?
    {
      value
    }
  }

  /** Applying `f` to each element in order, stopping at the first
      failure: a loop that raises out of its body. */
  function MapAll<T, U, E>(xs: seq<T>, f: T -> Result<U, E>): Result<seq<U>, E>
  {
    if |xs| == 0 then Ok([])
    else
      match MapAll(xs[..|xs| - 1], f)
      case Err(e) => Err(e)
      case Ok(acc) =>
        match f(xs[|xs| - 1])
        case Err(e) => Err(e)
        case Ok(y) => Ok(acc + [y])
  }

  /** Success gives each element's result in order; failure is the first
      element's that fails. */
  lemma {:induction false} MapAllMeaning<T, U, E>(xs: seq<T>, f: T -> Result<U, E>)
    ensures MapAll(xs, f).Ok? ==> (|MapAll(xs, f).value| == |xs| &&
      forall k :: 0 <= k < |xs| ==> f(xs[k]) == Ok(MapAll(xs, f).value[k]))
    ensures MapAll(xs, f).Err? ==> exists k :: (0 <= k < |xs| && f(xs[k]) == Err(MapAll(xs, f).error) &&
      forall j :: 0 <= j < k ==> f(xs[j]).Ok?)
  {
    if |xs| > 0 {
      var front := xs[..|xs| - 1];
      MapAllMeaning(front, f);
      match MapAll(front, f)
      case Err(e) =>
        var k :| 0 <= k < |front| && f(front[k]) == Err(e) && forall j :: 0 <= j < k ==> f(front[j]).Ok?;
        assert xs[k] == front[k];
        assert forall j :: 0 <= j < k ==> xs[j] == front[j];
      case Ok(acc) =>
        var last := f(xs[|xs| - 1]);
        if last.Err? {
          assert forall j :: 0 <= j < |front| ==> xs[j] == front[j];
        } else {
          var all := acc + [last.value];
          forall k | 0 <= k < |xs|
            ensures f(xs[k]) == Ok(all[k])
          {
            if k < |front| {
              assert all[k] == acc[k] && xs[k] == front[k];
            }
          }
        }
    }
  }

  /** One more element extends a successful loop. */
  lemma MapAllStep<T, U, E>(xs: seq<T>, x: T, f: T -> Result<U, E>)
    requires MapAll(xs, f).Ok?
    ensures f(x).Err? ==> MapAll(xs + [x], f) == Err(f(x).error)
    ensures f(x).Ok? ==> MapAll(xs + [x], f) == Ok(MapAll(xs, f).value + [f(x).value])
  {
    assert (xs + [x])[..|xs|] == xs;
  }

  /** Once the loop has failed, later elements do not change the outcome. */
  lemma {:induction false} MapAllStops<T, U, E>(a: seq<T>, b: seq<T>, f: T -> Result<U, E>)
    requires MapAll(a, f).Err?
    ensures MapAll(a + b, f) == MapAll(a, f)
    decreases |b|
  {
    if |b| == 0 {
      assert a + b == a;
    } else {
      var ab := a + b;
      assert ab[..|ab| - 1] == a + b[..|b| - 1];
      MapAllStops(a, b[..|b| - 1], f);
    }
  }

  /** One iteration of a loop over `xs` that stops at the first error: a
      failing element is the loop's outcome, a successful one extends the
      results so far. */
  lemma MapAllPrefix<T, U, E>(xs: seq<T>, i: nat, f: T -> Result<U, E>)
    requires i < |xs| && MapAll(xs[..i], f).Ok?
    ensures f(xs[i]).Err? ==> MapAll(xs, f) == Err(f(xs[i]).error)
    ensures f(xs[i]).Ok? ==> MapAll(xs[..i + 1], f) == Ok(MapAll(xs[..i], f).value + [f(xs[i]).value])
  {
    assert xs[..i + 1] == xs[..i] + [xs[i]];
    MapAllStep(xs[..i], xs[i], f);
    if f(xs[i]).Err? {
      MapAllStops(xs[..i + 1], xs[i + 1..], f);
      assert xs[..i + 1] + xs[i + 1..] == xs;
    }
  }

  /** Two steps that agree wherever the first succeeds give the same
      outcome wherever the first loop succeeds. */
  lemma {:induction false} MapAllAgree<T, U, E>(xs: seq<T>, f: T -> Result<U, E>, g: T -> Result<U, E>)
    requires forall x :: f(x).Ok? ==> g(x) == f(x)
    ensures MapAll(xs, f).Ok? ==> MapAll(xs, g) == MapAll(xs, f)
    decreases |xs|
  {
    if |xs| > 0 {
      MapAllAgree(xs[..|xs| - 1], f, g);
    }
  }
}
