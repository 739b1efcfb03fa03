/** Failure-carrying values shared by every module of the model.

  - `Option<T>` stands for Python's `None`-or-value returns and for
    JavaScript's `undefined`-or-value fields.
  - `Result<T>` stands for a computation that either produces a value or
    raises; the error carries the message the source would surface.
 */
module Outcomes {

  datatype Option<+T> = None | Some(value: T) {

    /** The value, or `default` when there is none (Python's `d.get(k, default)`). */
    function GetOr(default: T): (r: T)
      ensures Some? ==> r == value
      ensures None? ==> r == default
    {
      match this
      case Some(v) => v
      case None => default
    }
  }

  /** The message of a raised error (`error.message` in JavaScript, `str(e)` in Python). */
  datatype Error = Error(message: string)

  datatype Result<+T> = Ok(value: T) | Err(error: Error)

  /** The values `f` yields, in order, skipping the inputs it maps to `None`. */
  function FilterMap<A, B>(xs: seq<A>, f: A -> Option<B>): (r: seq<B>)
    ensures |r| <= |xs|
    ensures forall i :: 0 <= i < |r| ==> exists j :: 0 <= j < |xs| && f(xs[j]) == Some(r[i])
    decreases |xs|
  {
    if |xs| == 0 then []
    else
      var rest := FilterMap(xs[1..], f);
      match f(xs[0])
      case Some(y) => [y] + rest
      case None => rest
  }

  lemma {:induction false} FilterMapAppend<A, B>(a: seq<A>, b: seq<A>, f: A -> Option<B>)
    ensures FilterMap(a + b, f) == FilterMap(a, f) + FilterMap(b, f)
    decreases |a|
  {
    if |a| == 0 {
      assert a + b == b;
    } else {
      assert (a + b)[1..] == a[1..] + b;
      FilterMapAppend(a[1..], b, f);
    }
  }

  lemma {:induction false} FilterMapAllSome<A, B>(xs: seq<A>, f: A -> Option<B>)
    requires forall j :: 0 <= j < |xs| ==> f(xs[j]).Some?
    ensures |FilterMap(xs, f)| == |xs|
    ensures forall j :: 0 <= j < |xs| ==> FilterMap(xs, f)[j] == f(xs[j]).value
    decreases |xs|
  {
    if |xs| > 0 {
      FilterMapAllSome(xs[1..], f);
    }
  }

  /** How many inputs `f` maps to a value. */
  function CountSome<A, B>(xs: seq<A>, f: A -> Option<B>): nat
    decreases |xs|
  {
    if |xs| == 0 then 0 else (if f(xs[0]).Some? then 1 else 0) + CountSome(xs[1..], f)
  }

  lemma {:induction false} FilterMapLength<A, B>(xs: seq<A>, f: A -> Option<B>)
    ensures |FilterMap(xs, f)| == CountSome(xs, f)
    decreases |xs|
  {
    if |xs| > 0 {
      FilterMapLength(xs[1..], f);
    }
  }
}
