/** An operator that takes rows one after the other and advances a state: its runs as
    chains of single steps, and what a split of the rows into two calls does. */
module RowRuns {

  /** From state s the rows xs lead to state t and give the rows ys. */
  ghost predicate Rows<S(!new), X, Y>(step: (S, X, S, Y) -> bool, s: S, xs: seq<X>, t: S, ys: seq<Y>)
    decreases |xs|, 0
  {
    |ys| == |xs| && if xs == [] then t == s else exists mid :: Through(step, s, xs, mid, t, ys)
  }

  /** The rows but the last lead to mid, and the last one from there to t. */
  ghost predicate Through<S(!new), X, Y>(step: (S, X, S, Y) -> bool, s: S, xs: seq<X>, mid: S, t: S, ys: seq<Y>)
    requires |ys| == |xs| > 0
    decreases |xs| - 1, 1
  {
    var n := |xs| - 1;
    Rows(step, s, xs[..n], mid, ys[..n]) && step(mid, xs[n], t, ys[n])
  }

  ghost predicate Deterministic<S(!new), X(!new), Y(!new)>(step: (S, X, S, Y) -> bool) {
    forall s, x, t, y, t', y' :: step(s, x, t, y) && step(s, x, t', y') ==> t == t' && y == y'
  }

  lemma Append<S(!new), X, Y>(step: (S, X, S, Y) -> bool, s: S, xs: seq<X>, mid: S, ys: seq<Y>, x: X, t: S, y: Y)
    requires Rows(step, s, xs, mid, ys) && step(mid, x, t, y)
    ensures Rows(step, s, xs + [x], t, ys + [y])
  {
    assert (xs + [x])[..|xs|] == xs && (ys + [y])[..|xs|] == ys;
    assert Through(step, s, xs + [x], mid, t, ys + [y]);
  }

  /** Two calls in a row are one call on all the rows. */
  lemma {:induction false} Joined<S(!new), X, Y>(step: (S, X, S, Y) -> bool, s: S, xs: seq<X>, mid: S, ys: seq<Y>,
                                                 zs: seq<X>, t: S, ws: seq<Y>)
    requires Rows(step, s, xs, mid, ys) && Rows(step, mid, zs, t, ws)
    ensures Rows(step, s, xs + zs, t, ys + ws)
    decreases |zs|
  {
    if zs == [] {
      assert xs + zs == xs && ys + ws == ys;
    } else {
      var n := |zs| - 1;
      var u :| Through(step, mid, zs, u, t, ws);
      Joined(step, s, xs, mid, ys, zs[..n], u, ws[..n]);
      Append(step, s, xs + zs[..n], u, ys + ws[..n], zs[n], t, ws[n]);
      assert xs + zs[..n] + [zs[n]] == xs + zs && ys + ws[..n] + [ws[n]] == ys + ws;
    }
  }

  lemma {:induction false} Unique<S(!new), X(!new), Y(!new)>(step: (S, X, S, Y) -> bool, s: S, xs: seq<X>, t: S, ys: seq<Y>,
                                                             t': S, ys': seq<Y>)
    requires Deterministic(step) && Rows(step, s, xs, t, ys) && Rows(step, s, xs, t', ys')
    ensures t == t' && ys == ys'
    decreases |xs|
  {
    if xs != [] {
      var n := |xs| - 1;
      var u :| Through(step, s, xs, u, t, ys);
      var u' :| Through(step, s, xs, u', t', ys');
      Unique(step, s, xs[..n], u, ys[..n], u', ys'[..n]);
      assert ys == ys[..n] + [ys[n]] && ys' == ys'[..n] + [ys'[n]];
    }
  }

  /** Any split of the rows into two calls gives the same rows and the same state. */
  lemma SplitSame<S(!new), X(!new), Y(!new)>(step: (S, X, S, Y) -> bool, s: S, xs: seq<X>, mid: S, ys: seq<Y>,
                                             zs: seq<X>, t: S, ws: seq<Y>, whole: S, os: seq<Y>)
    requires Deterministic(step)
    requires Rows(step, s, xs, mid, ys) && Rows(step, mid, zs, t, ws) && Rows(step, s, xs + zs, whole, os)
    ensures whole == t && os == ys + ws
  {
    Joined(step, s, xs, mid, ys, zs, t, ws);
    Unique(step, s, xs + zs, whole, os, t, ys + ws);
  }
}
