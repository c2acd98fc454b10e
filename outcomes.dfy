/** Optional values, and the exceptions the sectioning scripts can raise, as values. */
module Outcomes {

  datatype Option<T> = None | Some(value: T)

  /** The Python exceptions the modelled code can raise, by cause. */
  datatype Error =
    | ParseError            // int() or float() rejected a field of a command-line string
    | IndexOutOfRange       // a list, tuple or array indexed past its end (IndexError)
    | NegativeSampleCount   // numpy.linspace called with num < 0 (ValueError)
    | HeightsCountMismatch  // the assertion on the number of Z heights (AssertionError)
    | EmptyArray            // numpy.min / numpy.max of an empty array (ValueError)
    | UnpackError           // tuple unpacking with the wrong number of values (ValueError)
    | NonFiniteCount        // int(numpy.ceil(x / 0)): an infinite or NaN count (Overflow/ValueError)
    | UndefinedName         // a variable read but never assigned (NameError)
    | MissingColours        // a boolean mask applied to None (TypeError)

  datatype Result<T> = Ok(value: T) | Err(error: Error)

  /**
   * Per-axis results computed in order, the way a Python loop or list
   * comprehension computes them: every value, or the exception of the first
   * one that raises.
   */
  function Collect<T>(rs: seq<Result<T>>): (r: Result<seq<T>>)
    ensures r.Ok? ==> |r.value| == |rs|
    decreases |rs|
  {
    if rs == [] then Ok([])
    else
      match Collect(rs[..|rs| - 1])
      case Err(e) => Err(e)
      case Ok(vs) =>
        match rs[|rs| - 1]
        case Err(e) => Err(e)
        case Ok(v) => Ok(vs + [v])
  }

  /**
   * Collecting succeeds iff every result does, and then holds their values
   * in order; otherwise it fails with the error of the first failing result.
   */
  lemma {:induction false} CollectMeaning<T>(rs: seq<Result<T>>)
    ensures Collect(rs).Ok? <==> forall k :: 0 <= k < |rs| ==> rs[k].Ok?
    ensures Collect(rs).Ok? ==> forall k :: 0 <= k < |rs| ==> Collect(rs).value[k] == rs[k].value
    ensures Collect(rs).Err? ==>
      exists k :: 0 <= k < |rs| && rs[k] == Err(Collect(rs).error) && forall l :: 0 <= l < k ==> rs[l].Ok?
    decreases |rs|
  {
    if rs != [] {
      var n := |rs| - 1;
      var front := rs[..n];
      CollectMeaning(front);
      assert forall k :: 0 <= k < n ==> front[k] == rs[k];
      if Collect(front).Err? {
        var k :| 0 <= k < n && front[k] == Err(Collect(front).error) && forall l :: 0 <= l < k ==> front[l].Ok?;
        assert rs[k] == Err(Collect(rs).error);
      } else if rs[n].Err? {
        assert rs[n] == Err(Collect(rs).error);
      }
    }
  }

  /** One more result, after a prefix that has not failed. */
  lemma CollectStep<T>(rs: seq<Result<T>>, k: nat)
    requires k < |rs| && Collect(rs[..k]).Ok?
    ensures rs[k].Err? ==> Collect(rs[..k + 1]) == Err(rs[k].error)
    ensures rs[k].Ok? ==> Collect(rs[..k + 1]) == Ok(Collect(rs[..k]).value + [rs[k].value])
  {
    assert rs[..k + 1][..k] == rs[..k];
  }

  /** Once a prefix has failed, the later results change nothing. */
  lemma {:induction false} CollectStopped<T>(rs: seq<Result<T>>, k: nat)
    requires k <= |rs| && Collect(rs[..k]).Err?
    ensures Collect(rs) == Collect(rs[..k])
    decreases |rs| - k
  {
    if k < |rs| {
      assert rs[..k + 1][..k] == rs[..k];
      CollectStopped(rs, k + 1);
    } else {
      assert rs[..k] == rs;
    }
  }
}
