/** Chains of status-checked foreign calls that stop at the first failure:
    the `if (status != 0) throw` sequence of the PTX loader and the
    `if (hipStatus != hipSuccess) goto Error` sequence of the HIP entry point.
    A chain is a plan of calls; `status(c, t)` is the status call `c` returns
    when `t` calls were made before it. */
module Steps {

  /** How a chain ended: every step succeeded, or step `call` returned the
      non-zero `status` and nothing after it ran. */
  datatype Stop<C> = Completed | FailedAt(call: C, status: int)

  function Outcome<C>(status: (C, nat) -> int, plan: seq<C>, t: nat): (o: Stop<C>)
    ensures o.FailedAt? ==> o.call in plan && o.status != 0
  {
    if plan == [] then Completed
    else if status(plan[0], t) != 0 then FailedAt(plan[0], status(plan[0], t))
    else Outcome(status, plan[1..], t + 1)
  }

  /** How many steps of the chain run. */
  function Taken<C>(status: (C, nat) -> int, plan: seq<C>, t: nat): (n: nat)
    ensures n <= |plan|
    ensures Outcome(status, plan, t) == Completed ==> n == |plan|
    ensures Outcome(status, plan, t) != Completed ==>
      0 < n && Outcome(status, plan, t) == FailedAt(plan[n - 1], status(plan[n - 1], t + n - 1))
  {
    if plan == [] then 0
    else if status(plan[0], t) != 0 then 1
    else 1 + Taken(status, plan[1..], t + 1)
  }

  /** A chain completes exactly when every one of its steps succeeds. */
  lemma {:induction false} CompletedIffAllSucceed<C>(status: (C, nat) -> int, plan: seq<C>, t: nat)
    ensures Outcome(status, plan, t) == Completed <==>
      forall i :: 0 <= i < |plan| ==> status(plan[i], t + i) == 0
  {
    if plan != [] {
      CompletedIffAllSucceed(status, plan[1..], t + 1);
      if status(plan[0], t) == 0 && Outcome(status, plan[1..], t + 1) == Completed {
        forall i | 0 <= i < |plan|
          ensures status(plan[i], t + i) == 0
        {
          if i > 0 { assert plan[i] == plan[1..][i - 1]; }
        }
      }
    }
  }

  /** The steps before the failing one all succeeded. */
  lemma {:induction false} TakenPrefixSucceeds<C>(status: (C, nat) -> int, plan: seq<C>, t: nat)
    ensures forall i :: 0 <= i < Taken(status, plan, t) - 1 ==> status(plan[i], t + i) == 0
  {
    if plan != [] && status(plan[0], t) == 0 {
      TakenPrefixSucceeds(status, plan[1..], t + 1);
      forall i | 0 <= i < Taken(status, plan, t) - 1
        ensures status(plan[i], t + i) == 0
      {
        if i > 0 { assert plan[i] == plan[1..][i - 1]; }
      }
    }
  }

  /** Running two chains back to back: the second runs only if the first
      completed. */
  lemma {:induction false} OutcomeAppend<C>(status: (C, nat) -> int, a: seq<C>, b: seq<C>, t: nat)
    ensures Outcome(status, a + b, t) ==
      if Outcome(status, a, t) == Completed then Outcome(status, b, t + |a|) else Outcome(status, a, t)
    ensures Taken(status, a + b, t) ==
      if Outcome(status, a, t) == Completed then |a| + Taken(status, b, t + |a|) else Taken(status, a, t)
  {
    if a == [] {
      assert a + b == b;
    } else {
      assert (a + b)[0] == a[0];
      assert (a + b)[1..] == a[1..] + b;
      OutcomeAppend(status, a[1..], b, t + 1);
    }
  }

  /** The chain ran from log `before` to log `after`: the log grew by the
      steps that ran, and `o` is how the chain ended. */
  ghost predicate RanChain<C>(status: (C, nat) -> int, before: seq<C>, after: seq<C>, plan: seq<C>, o: Stop<C>) {
    && o == Outcome(status, plan, |before|)
    && after == before + plan[..Taken(status, plan, |before|)]
  }

  /** A chain that completed ran every step. */
  lemma ChainCompleted<C>(status: (C, nat) -> int, before: seq<C>, after: seq<C>, plan: seq<C>)
    requires RanChain(status, before, after, plan, Completed)
    ensures after == before + plan
  {
    assert plan[..|plan|] == plan;
  }

  /** Two chains back to back, the second started because the first completed. */
  lemma ChainThen<C>(status: (C, nat) -> int, l0: seq<C>, l1: seq<C>, l2: seq<C>, a: seq<C>, b: seq<C>, o: Stop<C>)
    requires RanChain(status, l0, l1, a, Completed) && RanChain(status, l1, l2, b, o)
    ensures RanChain(status, l0, l2, a + b, o)
  {
    ChainCompleted(status, l0, l1, a);
    OutcomeAppend(status, a, b, |l0|);
    assert (a + b)[..|a| + Taken(status, b, |l1|)] == a + b[..Taken(status, b, |l1|)];
  }

  /** A chain that failed: the plan that was to follow it never ran. */
  lemma ChainStop<C>(status: (C, nat) -> int, l0: seq<C>, l1: seq<C>, a: seq<C>, b: seq<C>, o: Stop<C>)
    requires RanChain(status, l0, l1, a, o) && o != Completed
    ensures RanChain(status, l0, l1, a + b, o)
  {
    OutcomeAppend(status, a, b, |l0|);
    assert (a + b)[..Taken(status, a, |l0|)] == a[..Taken(status, a, |l0|)];
  }
}
