/**
 * The three ways the engine strings fallible steps together: a `map` whose callback may
 * throw, a loop that concatenates per-item results, and a loop that threads the
 * filesystem through one step after another. In each, the first failure ends the run.
 */
module Chains {
  import opened Wrappers
  import opened Seqs

  /** `xs.map(f)` where `f` may throw: the results in order, or the first error. */
  function MapAll<X, H, E>(xs: seq<X>, f: X -> Result<H, E>): (r: Result<seq<H>, E>)
    ensures r.Ok? ==> |r.value| == |xs|
  {
    if xs == [] then Ok([])
    else
      match MapAll(xs[..|xs| - 1], f)
      case Err(e) => Err(e)
      case Ok(hs) =>
        match f(xs[|xs| - 1])
        case Err(e) => Err(e)
        case Ok(h) => Ok(hs + [h])
  }

  /** All-or-nothing: the map succeeds exactly when every call succeeds, and then holds their values in order. */
  lemma {:induction false} MapAllOk<X, H, E>(xs: seq<X>, f: X -> Result<H, E>)
    ensures MapAll(xs, f).Ok? <==> forall i :: 0 <= i < |xs| ==> f(xs[i]).Ok?
    ensures MapAll(xs, f).Ok? ==> forall i :: 0 <= i < |xs| ==> MapAll(xs, f).value[i] == f(xs[i]).value
  {
    if xs != [] {
      var n := |xs| - 1;
      MapAllOk(xs[..n], f);
      assert forall i :: 0 <= i < n ==> xs[..n][i] == xs[i];
    }
  }

  /** A failed map reports the error of the first failing call. */
  lemma {:induction false} MapAllFirstError<X, H, E>(xs: seq<X>, f: X -> Result<H, E>)
    requires MapAll(xs, f).Err?
    ensures exists k :: 0 <= k < |xs| && f(xs[k]) == Err(MapAll(xs, f).error)
                        && forall i :: 0 <= i < k ==> f(xs[i]).Ok?
  {
    var n := |xs| - 1;
    assert forall i :: 0 <= i < n ==> xs[..n][i] == xs[i];
    if MapAll(xs[..n], f).Err? {
      MapAllFirstError(xs[..n], f);
    } else {
      MapAllOk(xs[..n], f);
      assert f(xs[n]) == Err(MapAll(xs, f).error);
    }
  }

  /** A failure in a prefix is the failure of the whole map. */
  lemma {:induction false} MapAllPrefixErr<X, H, E>(xs: seq<X>, k: nat, f: X -> Result<H, E>)
    requires k <= |xs| && MapAll(xs[..k], f).Err?
    ensures MapAll(xs, f) == MapAll(xs[..k], f)
    decreases |xs| - k
  {
    if k < |xs| {
      assert xs[..k + 1][..k] == xs[..k];
      MapAllPrefixErr(xs, k + 1, f);
    } else {
      assert xs[..k] == xs;
    }
  }

  /** The concatenation of `f`'s results over `xs` in order, or the first error. */
  function Chain<X, T, E>(xs: seq<X>, f: X -> Result<seq<T>, E>): Result<seq<T>, E>
  {
    match MapAll(xs, f)
    case Ok(vs) => Ok(Concat(vs))
    case Err(e) => Err(e)
  }

  /** One more element: what the loop body of a concatenating loop does. */
  lemma ChainStep<X, T, E>(xs: seq<X>, k: nat, f: X -> Result<seq<T>, E>)
    requires k < |xs| && Chain(xs[..k], f).Ok?
    ensures Chain(xs[..k + 1], f)
            == match f(xs[k])
               case Ok(v) => Ok(Chain(xs[..k], f).value + v)
               case Err(e) => Err(e)
  {
    assert xs[..k + 1][..k] == xs[..k];
    var vs := MapAll(xs[..k], f).value;
    if f(xs[k]).Ok? {
      assert (vs + [f(xs[k]).value])[..|vs|] == vs;
    }
  }

  /** A failure part-way through is the failure of the whole chain. */
  lemma ChainPrefixErr<X, T, E>(xs: seq<X>, k: nat, f: X -> Result<seq<T>, E>)
    requires k <= |xs| && Chain(xs[..k], f).Err?
    ensures Chain(xs, f) == Chain(xs[..k], f)
  {
    MapAllPrefixErr(xs, k, f);
  }

  /** The whole run is `Concat` of the per-item results; its length is the sum of theirs. */
  lemma ChainOk<X, T, E>(xs: seq<X>, f: X -> Result<seq<T>, E>)
    ensures Chain(xs, f).Ok? <==> forall i :: 0 <= i < |xs| ==> f(xs[i]).Ok?
    ensures Chain(xs, f).Ok? ==>
              var vs := MapAll(xs, f).value;
              && Chain(xs, f).value == Concat(vs)
              && |Chain(xs, f).value| == SumLengths(vs)
              && |vs| == |xs|
              && forall i :: 0 <= i < |xs| ==> vs[i] == f(xs[i]).value
  {
    MapAllOk(xs, f);
    if MapAll(xs, f).Ok? {
      ConcatLength(MapAll(xs, f).value);
    }
  }

  /** The state after some steps, and either the concatenated step outputs or the first error. */
  datatype Outcome<S, T, E> = Outcome(state: S, result: Result<seq<T>, E>)

  /**
   * Runs `step` over `xs`, each step seeing the state the previous one left. A failing step
   * ends the run; the state it left behind is kept (nothing is rolled back).
   */
  function Thread<S, X, T, E>(s: S, xs: seq<X>, step: (S, X) -> Outcome<S, T, E>): Outcome<S, T, E>
  {
    if xs == [] then Outcome(s, Ok([]))
    else
      var prev := Thread(s, xs[..|xs| - 1], step);
      if prev.result.Err? then prev
      else
        var o := step(prev.state, xs[|xs| - 1]);
        Outcome(o.state, if o.result.Err? then Err(o.result.error) else Ok(prev.result.value + o.result.value))
  }

  /** One more element: what the loop body of a state-threading loop does. */
  lemma ThreadStep<S, X, T, E>(s: S, xs: seq<X>, k: nat, step: (S, X) -> Outcome<S, T, E>)
    requires k < |xs| && Thread(s, xs[..k], step).result.Ok?
    ensures var prev := Thread(s, xs[..k], step);
            var o := step(prev.state, xs[k]);
            Thread(s, xs[..k + 1], step)
              == Outcome(o.state, if o.result.Err? then Err(o.result.error) else Ok(prev.result.value + o.result.value))
  {
    assert xs[..k + 1][..k] == xs[..k];
  }

  /** A failure part-way through ends the run with the state the failing step left. */
  lemma {:induction false} ThreadPrefixErr<S, X, T, E>(s: S, xs: seq<X>, k: nat, step: (S, X) -> Outcome<S, T, E>)
    requires k <= |xs| && Thread(s, xs[..k], step).result.Err?
    ensures Thread(s, xs, step) == Thread(s, xs[..k], step)
    decreases |xs| - k
  {
    if k < |xs| {
      assert xs[..k + 1][..k] == xs[..k];
      ThreadPrefixErr(s, xs, k + 1, step);
    } else {
      assert xs[..k] == xs;
    }
  }

  /** What each step reported, given the state the earlier steps left (empty for a failed step). */
  function StepOutputs<S, X, T, E>(s: S, xs: seq<X>, step: (S, X) -> Outcome<S, T, E>): seq<seq<T>>
  {
    seq(|xs|, i requires 0 <= i < |xs| =>
      var o := step(Thread(s, xs[..i], step).state, xs[i]);
      if o.result.Ok? then o.result.value else [])
  }

  /** A successful run: every step succeeded on the state the steps before it left. */
  lemma {:induction false} ThreadOkSteps<S, X, T, E>(s: S, xs: seq<X>, step: (S, X) -> Outcome<S, T, E>)
    requires Thread(s, xs, step).result.Ok?
    ensures forall i :: 0 <= i < |xs| ==> step(Thread(s, xs[..i], step).state, xs[i]).result.Ok?
  {
    if xs != [] {
      var n := |xs| - 1;
      var p := xs[..n];
      assert Thread(s, p, step).result.Ok?;
      ThreadOkSteps(s, p, step);
      forall i | 0 <= i < |xs|
        ensures step(Thread(s, xs[..i], step).state, xs[i]).result.Ok?
      {
        if i < n {
          assert xs[..i] == p[..i];
        }
      }
    }
  }

  /** A successful run outputs what its steps reported, concatenated in order. */
  lemma {:induction false} ThreadOk<S, X, T, E>(s: S, xs: seq<X>, step: (S, X) -> Outcome<S, T, E>)
    requires Thread(s, xs, step).result.Ok?
    ensures Thread(s, xs, step).result.value == Concat(StepOutputs(s, xs, step))
  {
    if xs != [] {
      var n := |xs| - 1;
      var p := xs[..n];
      var prev := Thread(s, p, step);
      assert prev.result.Ok?;
      ThreadOk(s, p, step);
      var o := step(prev.state, xs[n]);
      var outs, outs' := StepOutputs(s, xs, step), StepOutputs(s, p, step);
      forall i | 0 <= i < n
        ensures outs[i] == outs'[i]
      {
        assert xs[..i] == p[..i];
      }
      assert outs[..n] == outs';
      assert outs[n] == o.result.value;
    }
  }

  /**
   * A failed run: some step failed on the state the successful steps before it left, and the
   * run ends with that step's error and with the state it left (nothing is rolled back).
   */
  lemma {:induction false} ThreadFirstError<S, X, T, E>(s: S, xs: seq<X>, step: (S, X) -> Outcome<S, T, E>)
    requires Thread(s, xs, step).result.Err?
    ensures exists k :: 0 <= k < |xs| && Thread(s, xs[..k], step).result.Ok? &&
              var o := step(Thread(s, xs[..k], step).state, xs[k]);
              o.result.Err? && Thread(s, xs, step) == Outcome(o.state, Err(o.result.error))
  {
    var n := |xs| - 1;
    var p := xs[..n];
    if Thread(s, p, step).result.Err? {
      ThreadFirstError(s, p, step);
      var k :| 0 <= k < |p| && Thread(s, p[..k], step).result.Ok? &&
              var o := step(Thread(s, p[..k], step).state, p[k]);
              o.result.Err? && Thread(s, p, step) == Outcome(o.state, Err(o.result.error));
      assert p[..k] == xs[..k];
    } else {
      assert xs[..n] == p;
    }
  }
}
