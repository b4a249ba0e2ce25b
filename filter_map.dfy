/**
 * `iter().filter_map(step).collect::<Vec<_>>()` where the step may panic:
 * both editor versions build their lines this way. The first panic stops
 * the whole collection.
 */
module FilterMaps {
  import opened Common

  /** The collected values, in the order of `xs`, or the first panic. */
  function FilterMap<T, U>(step: T -> Result<Option<U>>, xs: seq<T>): (r: Result<seq<U>>)
    ensures r.Ok? ==> |r.value| <= |xs|
    decreases |xs|
  {
    if xs == [] then Ok([])
    else
      match FilterMap(step, xs[..|xs| - 1])
      case Abort(reason) => Abort(reason)
      case Ok(prefix) =>
        match step(xs[|xs| - 1])
        case Abort(reason) => Abort(reason)
        case Ok(None) => Ok(prefix)
        case Ok(Some(y)) => Ok(prefix + [y])
  }

  /** Scanning one more element: its value, if any, is appended; its panic stops the collection. */
  lemma FilterMapStep<T, U>(step: T -> Result<Option<U>>, xs: seq<T>, k: nat, acc: seq<U>)
    requires k < |xs| && FilterMap(step, xs[..k]) == Ok(acc)
    ensures FilterMap(step, xs[..k + 1]) ==
      match step(xs[k])
      case Abort(reason) => Abort(reason)
      case Ok(None) => Ok(acc)
      case Ok(Some(y)) => Ok(acc + [y])
  {
    assert xs[..k + 1][..k] == xs[..k];
  }

  /** The collection panics exactly when the step panics on some element. */
  lemma {:induction false} FilterMapAborts<T, U>(step: T -> Result<Option<U>>, xs: seq<T>)
    ensures FilterMap(step, xs).Abort? <==> exists k :: 0 <= k < |xs| && step(xs[k]).Abort?
    decreases |xs|
  {
    if xs != [] {
      var front := xs[..|xs| - 1];
      FilterMapAborts(step, front);
      assert forall k :: 0 <= k < |front| ==> front[k] == xs[k];
    }
  }

  /** A value is collected exactly when the step yields it for some element. */
  lemma {:induction false} FilterMapMembers<T, U>(step: T -> Result<Option<U>>, xs: seq<T>)
    requires FilterMap(step, xs).Ok?
    ensures forall y :: y in FilterMap(step, xs).value <==>
      exists k :: 0 <= k < |xs| && step(xs[k]) == Ok(Some(y))
    decreases |xs|
  {
    if xs != [] {
      var n := |xs| - 1;
      var front := xs[..n];
      FilterMapMembers(step, front);
      var prefix := FilterMap(step, front).value;
      var last := step(xs[n]);
      assert FilterMap(step, xs).value == if last.value.Some? then prefix + [last.value.value] else prefix;
      forall y
        ensures y in FilterMap(step, xs).value <==>
          exists k :: 0 <= k < |xs| && step(xs[k]) == Ok(Some(y))
      {
        if y in prefix {
          var k :| 0 <= k < |front| && step(front[k]) == Ok(Some(y));
          assert xs[k] == front[k];
        }
        if exists k :: 0 <= k < |xs| && step(xs[k]) == Ok(Some(y)) {
          var k :| 0 <= k < |xs| && step(xs[k]) == Ok(Some(y));
          if k < n {
            assert front[k] == xs[k];
          }
        }
      }
    }
  }

  /** When every element yields a value, the collection is the list of those values. */
  lemma {:induction false} FilterMapKeepsAll<T, U>(step: T -> Result<Option<U>>, xs: seq<T>, ys: seq<U>)
    requires |ys| == |xs|
    requires forall k :: 0 <= k < |xs| ==> step(xs[k]) == Ok(Some(ys[k]))
    ensures FilterMap(step, xs) == Ok(ys)
    decreases |xs|
  {
    if xs != [] {
      var n := |xs| - 1;
      assert forall k :: 0 <= k < n ==> xs[..n][k] == xs[k];
      FilterMapKeepsAll(step, xs[..n], ys[..n]);
      assert ys == ys[..n] + [ys[n]];
    }
  }

  /** A panic among the first `k` elements is the panic of the whole collection. */
  lemma {:induction false} FilterMapStopped<T, U>(step: T -> Result<Option<U>>, xs: seq<T>, k: nat)
    requires k <= |xs| && FilterMap(step, xs[..k]).Abort?
    ensures FilterMap(step, xs) == FilterMap(step, xs[..k])
    decreases |xs|
  {
    if k < |xs| {
      var front := xs[..|xs| - 1];
      assert front[..k] == xs[..k];
      FilterMapStopped(step, front, k);
    } else {
      assert xs[..k] == xs;
    }
  }
}
