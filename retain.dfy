/** The meaning of `Vec::retain` driven by an `FnMut` callback. The callback
    is asked once per element, front to back, and may update state it has
    captured; here that state is passed in and handed back explicitly, so a
    callback is a function `(S, T) -> (S, bool)` answering "keep?". */
module Retain {

  /** The state left by the last call and the kept elements, in their original
      order. Defined on prefixes, the way the loop that implements it advances. */
  function Pass<T, S>(keep: (S, T) -> (S, bool), s: S, xs: seq<T>): (S, seq<T>)
    decreases |xs|
  {
    if xs == [] then (s, [])
    else
      var (s1, kept) := Pass(keep, s, xs[..|xs| - 1]);
      var (s2, k) := keep(s1, xs[|xs| - 1]);
      (s2, if k then kept + [xs[|xs| - 1]] else kept)
  }

  /** The callback's answers, in the order in which it is asked. */
  function Verdicts<T, S>(keep: (S, T) -> (S, bool), s: S, xs: seq<T>): (vs: seq<bool>)
    ensures |vs| == |xs|
    decreases |xs|
  {
    if xs == [] then []
    else
      var front := xs[..|xs| - 1];
      Verdicts(keep, s, front) + [keep(Pass(keep, s, front).0, xs[|xs| - 1]).1]
  }

  /** Reference filter: the elements whose verdict is true, in order. */
  function Select<T>(xs: seq<T>, vs: seq<bool>): (r: seq<T>)
    requires |vs| == |xs|
    ensures |r| <= |xs|
    ensures multiset(r) <= multiset(xs)
    decreases |xs|
  {
    if xs == [] then []
    else
      var front := xs[..|xs| - 1];
      assert xs == front + [xs[|xs| - 1]];
      Select(front, vs[..|vs| - 1]) + (if vs[|vs| - 1] then [xs[|xs| - 1]] else [])
  }

  /** `retain` calls its callback with a negated answer: keep what did not hit. */
  function Unless<T, S>(hit: (S, T) -> (S, bool)): (S, T) -> (S, bool)
  {
    (s: S, x: T) => (hit(s, x).0, !hit(s, x).1)
  }

  /** The pass keeps exactly the elements for which the callback said "keep". */
  lemma {:induction false} PassKeepsSelected<T, S>(keep: (S, T) -> (S, bool), s: S, xs: seq<T>)
    ensures Pass(keep, s, xs).1 == Select(xs, Verdicts(keep, s, xs))
    decreases |xs|
  {
    if xs != [] {
      var front := xs[..|xs| - 1];
      PassKeepsSelected(keep, s, front);
      var vs := Verdicts(keep, s, xs);
      assert vs[..|vs| - 1] == Verdicts(keep, s, front);
    }
  }

  /** An element is selected exactly when some position holding it has a true verdict. */
  lemma {:induction false} SelectMembers<T>(xs: seq<T>, vs: seq<bool>, x: T)
    requires |vs| == |xs|
    ensures x in Select(xs, vs) <==> exists i :: 0 <= i < |xs| && vs[i] && xs[i] == x
    decreases |xs|
  {
    if xs != [] {
      var n := |xs| - 1;
      SelectMembers(xs[..n], vs[..n], x);
      if x in Select(xs[..n], vs[..n]) {
        var i :| 0 <= i < n && vs[..n][i] && xs[..n][i] == x;
        assert vs[i] && xs[i] == x;
      }
      if exists i :: 0 <= i < |xs| && vs[i] && xs[i] == x {
        var i :| 0 <= i < |xs| && vs[i] && xs[i] == x;
        if i < n {
          assert vs[..n][i] && xs[..n][i] == x;
        }
      }
    }
  }

  /** Asking the negated callback gives the negated answers, with the same state. */
  lemma {:induction false} UnlessNegates<T, S>(hit: (S, T) -> (S, bool), s: S, xs: seq<T>)
    ensures Pass(Unless(hit), s, xs).0 == Pass(hit, s, xs).0
    ensures forall i :: 0 <= i < |xs| ==> Verdicts(Unless(hit), s, xs)[i] == !Verdicts(hit, s, xs)[i]
    decreases |xs|
  {
    if xs != [] {
      var front := xs[..|xs| - 1];
      UnlessNegates(hit, s, front);
      var u, h := Verdicts(Unless(hit), s, xs), Verdicts(hit, s, xs);
      assert u[..|xs| - 1] == Verdicts(Unless(hit), s, front);
      assert h[..|xs| - 1] == Verdicts(hit, s, front);
    }
  }
}
