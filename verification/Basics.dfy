/** Small types shared by the whole model. */
module Basics {

  /** A value that may be absent. */
  datatype Option<+T> = None | Some(value: T)

  /** The outcome of an operation that can fail. */
  datatype Result<+T, +E> = Ok(value: T) | Err(error: E)

  /** One octet of a file, a key or a network payload. */
  newtype byte = x: int | 0 <= x < 256

  ghost predicate NoDuplicates<T>(s: seq<T>)
  {
    forall i, j :: 0 <= i < j < |s| ==> s[i] != s[j]
  }

  /** One step of an operation, and whether it went through. */
  datatype Step<Op> = Step(op: Op, ok: bool)

  /** The steps were taken in the order of the plan until one did not go through.
      The operation succeeds if all did, and fails for no other reason than that
      the last one taken did not. */
  predicate InOrder<Op(==)>(taken: seq<Step<Op>>, plan: seq<Op>, ok: bool)
  {
    && |taken| <= |plan|
    && (forall k :: 0 <= k < |taken| ==> taken[k].op == plan[k])
    && (forall k :: 0 <= k < |taken| - 1 ==> taken[k].ok)
    && (ok ==> |taken| == |plan|)
    && (taken == [] ==> ok)
    && (taken != [] ==> taken[|taken| - 1].ok == ok)
  }

  /** The next part of a plan, once the first part has gone through. */
  lemma NextSteps<Op>(taken: seq<Step<Op>>, plan: seq<Op>, more: seq<Step<Op>>, rest: seq<Op>, ok: bool)
    requires InOrder(taken, plan, true) && InOrder(more, rest, ok)
    ensures InOrder(taken + more, plan + rest, ok)
  {
  }

  /** One more step of a plan. */
  lemma OneStep<Op>(taken: seq<Step<Op>>, plan: seq<Op>, ok: bool)
    requires |taken| < |plan| && InOrder(taken, plan[..|taken|], true)
    ensures var longer := taken + [Step(plan[|taken|], ok)];
      InOrder(longer, plan[..|taken| + 1], ok) && (ok || InOrder(longer, plan, false))
  {
  }

  /** The same, added to a record of all steps so far. */
  lemma TakeStep<Op>(past: seq<Step<Op>>, taken: seq<Step<Op>>, plan: seq<Op>, ok: bool) returns (longer: seq<Step<Op>>)
    requires |taken| < |plan| && InOrder(taken, plan[..|taken|], true)
    ensures longer == taken + [Step(plan[|taken|], ok)]
    ensures past + taken + [Step(plan[|taken|], ok)] == past + longer
    ensures taken == [] ==> past + [Step(plan[0], ok)] == past + longer
    ensures InOrder(longer, plan[..|longer|], ok)
    ensures !ok || |longer| == |plan| ==> InOrder(longer, plan, ok)
  {
    longer := taken + [Step(plan[|taken|], ok)];
    OneStep(taken, plan, ok);
    assert past + taken + [Step(plan[|taken|], ok)] == past + longer;
    Whole(plan);
  }

  lemma NoFurther<Op>(taken: seq<Step<Op>>, plan: seq<Op>, rest: seq<Op>)
    requires InOrder(taken, plan, false)
    ensures InOrder(taken, plan + rest, false)
  {
  }

  lemma Regroup<T>(a: seq<T>, b: seq<T>, c: seq<T>)
    ensures a + b + c == a + (b + c)
  {
  }

  lemma PastAndLater<T>(past: seq<T>, now: seq<T>)
    requires past <= now
    ensures now == past + now[|past|..]
  {
  }

  lemma Whole<T>(s: seq<T>)
    ensures s[..|s|] == s
  {
  }

  lemma FirstApart<T>(s: seq<T>)
    requires s != []
    ensures s == [s[0]] + s[1..]
  {
  }

  lemma LastApart<T>(s: seq<T>)
    requires s != []
    ensures s == s[..|s| - 1] + [s[|s| - 1]]
  {
  }

  lemma FirstOfConcat<T>(a: seq<T>, b: seq<T>)
    requires a != []
    ensures a + b == [a[0]] + (a[1..] + b)
  {
  }

  lemma MoveFirst<T>(a: seq<T>, b: seq<T>)
    requires b != []
    ensures a + [b[0]] + b[1..] == a + b
  {
  }

  lemma LaterPart<T>(past: seq<T>, now: seq<T>, from: nat)
    requires past <= now && from <= |past|
    ensures now[from..] == past[from..] + now[|past|..]
  {
  }

  lemma LastOfConcat<T>(a: seq<T>, b: seq<T>)
    requires b != []
    ensures (a + b)[..|a + b| - 1] == a + b[..|b| - 1] && (a + b)[|a + b| - 1] == b[|b| - 1]
  {
  }

  function Map<A, B>(f: A -> B, s: seq<A>): (r: seq<B>)
    ensures |r| == |s| && forall i :: 0 <= i < |s| ==> r[i] == f(s[i])
  {
    seq(|s|, i requires 0 <= i < |s| => f(s[i]))
  }
}
