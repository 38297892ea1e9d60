/** The sequential fan-out every orchestration loop performs: visit the
    selected items in order and let each one contribute its own device
    calls. The calls of the whole loop are the concatenation, in input order,
    of the calls of the items. */
module FanOut {

  /** The calls made by visiting `xs` in order when item `x` makes `f(x)`. */
  function FlatMap<T, C>(xs: seq<T>, f: T -> seq<C>): seq<C> {
    if xs == [] then [] else FlatMap(xs[..|xs| - 1], f) + f(xs[|xs| - 1])
  }

  /** Visiting two batches one after the other makes the calls of the first
      batch followed by the calls of the second: no call is reordered. */
  lemma {:induction false} FlatMapAppend<T, C>(xs: seq<T>, ys: seq<T>, f: T -> seq<C>)
    ensures FlatMap(xs + ys, f) == FlatMap(xs, f) + FlatMap(ys, f)
  {
    if ys != [] {
      var zs := xs + ys;
      assert zs[..|zs| - 1] == xs + ys[..|ys| - 1];
      FlatMapAppend(xs, ys[..|ys| - 1], f);
    } else {
      assert xs + ys == xs;
    }
  }

  /** A call is made exactly when some item of the input makes it. */
  lemma {:induction false} FlatMapIn<T, C>(xs: seq<T>, f: T -> seq<C>, c: C)
    ensures c in FlatMap(xs, f) <==> exists k :: 0 <= k < |xs| && c in f(xs[k])
  {
    if xs != [] {
      var init := xs[..|xs| - 1];
      FlatMapIn(init, f, c);
      if exists k :: 0 <= k < |init| && c in f(init[k]) {
        var k :| 0 <= k < |init| && c in f(init[k]);
        assert xs[k] == init[k];
      }
      if exists k :: 0 <= k < |xs| && c in f(xs[k]) {
        var k :| 0 <= k < |xs| && c in f(xs[k]);
        if k < |init| {
          assert init[k] == xs[k];
        }
      }
    }
  }
}
