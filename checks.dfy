/**
 * Early-return validation chains as data: a sequence of checks, each saying
 * whether its condition is violated and which error it reports. The outcome of
 * the chain is the error of the first violated check, or `Pass`.
 */
module Checks {
  import opened Wrappers

  datatype Check<+E> = Check(violated: bool, error: E)

  /** `k` is the position of the first violated check of `cs`. */
  predicate FirstViolation<E>(cs: seq<Check<E>>, k: int) {
    && 0 <= k < |cs|
    && cs[k].violated
    && forall j :: 0 <= j < k ==> !cs[j].violated
  }

  /** Runs the checks in order and stops at the first violated one. */
  function FirstFailure<E(==)>(cs: seq<Check<E>>): (r: Outcome<E>)
    ensures r.Pass? <==> forall i :: 0 <= i < |cs| ==> !cs[i].violated
    ensures r.Fail? ==> exists k :: FirstViolation(cs, k) && cs[k].error == r.error
  {
    if cs == [] then Pass
    else if cs[0].violated then
      assert FirstViolation(cs, 0);
      Fail(cs[0].error)
    else
      var rest := FirstFailure(cs[1..]);
      if rest.Fail? then
        var k :| FirstViolation(cs[1..], k) && cs[1..][k].error == rest.error;
        assert FirstViolation(cs, k + 1);
        rest
      else rest
  }

  /** The error reported is that of the first violated check, whichever it is. */
  lemma FirstFailureAt<E>(cs: seq<Check<E>>, k: int)
    requires FirstViolation(cs, k)
    ensures FirstFailure(cs) == Fail(cs[k].error)
  {
  }

  /** Running two chains one after the other is running their concatenation. */
  lemma {:induction false} FirstFailureAppend<E>(a: seq<Check<E>>, b: seq<Check<E>>)
    ensures FirstFailure(a + b) == if FirstFailure(a).Fail? then FirstFailure(a) else FirstFailure(b)
  {
    if a != [] {
      assert (a + b)[0] == a[0];
      assert (a + b)[1..] == a[1..] + b;
      FirstFailureAppend(a[1..], b);
    } else {
      assert a + b == b;
    }
  }
}
