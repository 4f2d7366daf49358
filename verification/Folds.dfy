// Folding a sequence of updates into a state, and reordering commuting ones.
module Folds {

  function FoldAll<S, P>(step: (S, P) -> S, t: S, ps: seq<P>): S {
    if ps == [] then t else step(FoldAll(step, t, ps[..|ps| - 1]), ps[|ps| - 1])
  }

  lemma FoldAllSnoc<S, P>(step: (S, P) -> S, t: S, ps: seq<P>, p: P)
    ensures FoldAll(step, t, ps + [p]) == step(FoldAll(step, t, ps), p)
  {
    assert (ps + [p])[..|ps|] == ps;
  }

  ghost predicate PairwiseCommute<S(!new), P>(step: (S, P) -> S, ps: seq<P>) {
    forall i, j, t | 0 <= i < |ps| && 0 <= j < |ps| ::
      step(step(t, ps[i]), ps[j]) == step(step(t, ps[j]), ps[i])
  }

  function Without<T>(s: seq<T>, i: nat): seq<T>
    requires i < |s|
  {
    s[..i] + s[i + 1..]
  }

  lemma WithoutOfInit<T>(s: seq<T>, i: nat)
    requires i < |s| - 1
    ensures Without(s, i) == Without(s[..|s| - 1], i) + [s[|s| - 1]]
  {
  }

  lemma WithoutMultiset<T>(s: seq<T>, i: nat)
    requires i < |s|
    ensures multiset(Without(s, i)) == multiset(s) - multiset{s[i]}
  {
    assert s == s[..i] + [s[i]] + s[i + 1..];
  }

  lemma WithoutCommutes<S(!new), P>(step: (S, P) -> S, ps: seq<P>, i: nat)
    requires i < |ps| && PairwiseCommute(step, ps)
    ensures PairwiseCommute(step, Without(ps, i))
  {
    var rest := Without(ps, i);
    forall a, b, t | 0 <= a < |rest| && 0 <= b < |rest|
      ensures step(step(t, rest[a]), rest[b]) == step(step(t, rest[b]), rest[a])
    {
      var a', b' := if a < i then a else a + 1, if b < i then b else b + 1;
      assert rest[a] == ps[a'] && rest[b] == ps[b'];
    }
  }

  lemma {:induction false} MoveToEnd<S(!new), P>(step: (S, P) -> S, t: S, ps: seq<P>, i: nat)
    requires i < |ps| && PairwiseCommute(step, ps)
    ensures FoldAll(step, t, ps) == step(FoldAll(step, t, Without(ps, i)), ps[i])
    decreases |ps|
  {
    var n := |ps| - 1;
    if i == n {
      assert Without(ps, i) == ps[..n];
    } else {
      var init, shorter := ps[..n], Without(ps[..n], i);
      MoveToEnd(step, t, init, i);
      WithoutOfInit(ps, i);
      FoldAllSnoc(step, t, shorter, ps[n]);
      var mid := FoldAll(step, t, shorter);
      assert step(step(mid, ps[i]), ps[n]) == step(step(mid, ps[n]), ps[i]);
    }
  }

  // Pairwise commuting updates give one state in every order.
  lemma {:induction false} FoldAllAnyOrder<S(!new), P>(step: (S, P) -> S, t: S, ps: seq<P>, qs: seq<P>)
    requires PairwiseCommute(step, ps) && multiset(ps) == multiset(qs)
    ensures FoldAll(step, t, ps) == FoldAll(step, t, qs)
    decreases |qs|
  {
    if qs == [] {
      assert |multiset(ps)| == 0;
    } else {
      var n := |qs| - 1;
      assert qs[n] in multiset(ps);
      var i :| 0 <= i < |ps| && ps[i] == qs[n];
      MoveToEnd(step, t, ps, i);
      WithoutMultiset(ps, i);
      WithoutCommutes(step, ps, i);
      WithoutMultiset(qs, n);
      assert Without(qs, n) == qs[..n];
      FoldAllAnyOrder(step, t, Without(ps, i), qs[..n]);
    }
  }
}
