/** Running a state machine over a sequence of inputs. */
module Folds {

  function Run<S, B>(step: (S, B) -> S, s: S, inputs: seq<B>): (r: S)
    decreases |inputs|
  {
    if inputs == [] then s
    else step(Run(step, s, inputs[..|inputs| - 1]), inputs[|inputs| - 1])
  }

  lemma RunSnoc<S, B>(step: (S, B) -> S, s: S, inputs: seq<B>, b: B)
    ensures Run(step, s, inputs + [b]) == step(Run(step, s, inputs), b)
  {
    assert (inputs + [b])[..|inputs|] == inputs;
  }

  lemma RunPrefix<S, B>(step: (S, B) -> S, s: S, inputs: seq<B>, i: nat)
    requires i < |inputs|
    ensures Run(step, s, inputs[..i + 1]) == step(Run(step, s, inputs[..i]), inputs[i])
  {
    RunSnoc(step, s, inputs[..i], inputs[i]);
    assert inputs[..i + 1] == inputs[..i] + [inputs[i]];
  }

  lemma {:induction false} RunConcat<S, B>(step: (S, B) -> S, s: S, a: seq<B>, b: seq<B>)
    ensures Run(step, s, a + b) == Run(step, Run(step, s, a), b)
    decreases |b|
  {
    if b == [] {
      assert a + b == a;
    } else {
      var n := |b| - 1;
      RunConcat(step, s, a, b[..n]);
      assert (a + b)[..|a + b| - 1] == a + b[..n];
    }
  }

  /** An injective step keeps two runs apart once a single differing input has parted them. */
  lemma {:induction false} DifferenceKept<S(!new), B(!new)>(step: (S, B) -> S, s: S, a: seq<B>, b: seq<B>, k: nat)
    requires |a| == |b| && k < |a| && a[k] != b[k]
    requires forall i | 0 <= i < |a| && i != k :: a[i] == b[i]
    requires forall r, x, y :: x != y ==> step(r, x) != step(r, y)
    requires forall r, t, x :: r != t ==> step(r, x) != step(t, x)
    ensures Run(step, s, a) != Run(step, s, b)
    decreases |a|
  {
    var n := |a| - 1;
    if k == n {
      assert a[..n] == b[..n];
    } else {
      DifferenceKept(step, s, a[..n], b[..n], k);
    }
  }

  /** A map that turns one step into another turns the runs into each other. */
  lemma {:induction false} RunHomomorphism<S(!new), T, B(!new)>(
      step: (S, B) -> S, step': (T, B) -> T, h: S -> T, s: S, inputs: seq<B>)
    requires forall r, x :: h(step(r, x)) == step'(h(r), x)
    ensures h(Run(step, s, inputs)) == Run(step', h(s), inputs)
    decreases |inputs|
  {
    if inputs != [] {
      RunHomomorphism(step, step', h, s, inputs[..|inputs| - 1]);
    }
  }

  /** The states along a run, one for each number of inputs. */
  lemma {:induction false} Trail<S, B>(step: (S, B) -> S, s: S, inputs: seq<B>) returns (states: seq<S>)
    ensures |states| == |inputs| + 1 && states[0] == s && states[|inputs|] == Run(step, s, inputs)
    ensures forall k | 0 <= k < |inputs| :: states[k + 1] == step(states[k], inputs[k])
    decreases |inputs|
  {
    if inputs == [] {
      states := [s];
    } else {
      var n := |inputs| - 1;
      states := Trail(step, s, inputs[..n]);
      assert forall k | 0 <= k < n :: inputs[..n][k] == inputs[k];
      states := states + [step(states[n], inputs[n])];
    }
  }
}
