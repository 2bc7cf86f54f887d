/** Runs of a step function: every protocol of this project is a total function
    `step(state, event)`, and its runs are all finite sequences of events. */
module Runs {

  /** The state reached from `s` by performing the events of `es` in order. */
  function Exec<S, E>(step: (S, E) -> S, s: S, es: seq<E>): S
    decreases |es|
  {
    if es == [] then s else step(Exec(step, s, es[..|es| - 1]), es[|es| - 1])
  }

  /** One more event is one more step. */
  lemma ExecOneMore<S, E>(step: (S, E) -> S, s: S, es: seq<E>, e: E)
    ensures Exec(step, s, es + [e]) == step(Exec(step, s, es), e)
  {
    assert (es + [e])[..|es|] == es;
  }

  /** A run can be cut anywhere. */
  lemma {:induction false} ExecConcat<S, E>(step: (S, E) -> S, s: S, es: seq<E>, fs: seq<E>)
    ensures Exec(step, s, es + fs) == Exec(step, Exec(step, s, es), fs)
    decreases |fs|
  {
    if fs == [] {
      assert es + fs == es;
    } else {
      var k := |fs| - 1;
      assert es + fs == (es + fs[..k]) + [fs[k]];
      ExecOneMore(step, s, es + fs[..k], fs[k]);
      ExecConcat(step, s, es, fs[..k]);
    }
  }

  /** What holds at the start and is kept by every step holds after every run. */
  lemma {:induction false} Always<S(!new), E(!new)>(step: (S, E) -> S, inv: S -> bool, s: S, es: seq<E>)
    requires inv(s)
    requires forall t, e :: inv(t) ==> inv(step(t, e))
    ensures inv(Exec(step, s, es))
    decreases |es|
  {
    if es != [] {
      Always(step, inv, s, es[..|es| - 1]);
    }
  }
}
