/** Building lists in loops: keeping the elements that pass a test,
    keeping some elements transformed, and concatenating the lists built
    for each element (`filter`, and `forEach` with `push`). */
module Folds {
  import opened Wrappers
  import opened JsSet

  /** `xs.filter(p)`. */
  function Filter<A>(xs: seq<A>, p: A -> bool): seq<A> {
    if xs == [] then []
    else Filter(xs[..|xs| - 1], p) + (if p(xs[|xs| - 1]) then [xs[|xs| - 1]] else [])
  }

  /** The values `f` gives for the elements of `xs`, in order, skipping
      `None`. */
  function FilterMap<A, B>(xs: seq<A>, f: A -> Option<B>): seq<B> {
    if xs == [] then []
    else
      FilterMap(xs[..|xs| - 1], f)
        + match f(xs[|xs| - 1]) case Some(y) => [y] case None => []
  }

  function Flatten<B>(xss: seq<seq<B>>): seq<B> {
    if xss == [] then [] else Flatten(xss[..|xss| - 1]) + xss[|xss| - 1]
  }

  /** For each element `x` of `xs`, nothing when `keep(x)` fails, and
      otherwise the values `f(x)` gives for the elements of `es`. */
  function ForEachKept<A, E, B>(xs: seq<A>, keep: A -> bool, es: seq<E>, f: A -> E -> Option<B>): seq<seq<B>> {
    seq(|xs|, i requires 0 <= i < |xs| => if keep(xs[i]) then FilterMap(es, f(xs[i])) else [])
  }

  lemma {:induction false} FilterMembers<A>(xs: seq<A>, p: A -> bool)
    ensures forall x :: x in Filter(xs, p) <==> x in xs && p(x)
    decreases |xs|
  {
    if xs != [] {
      FilterMembers(xs[..|xs| - 1], p);
      assert xs == xs[..|xs| - 1] + [xs[|xs| - 1]];
    }
  }

  lemma {:induction false} FilterMapMembers<A, B>(xs: seq<A>, f: A -> Option<B>)
    ensures forall y :: y in FilterMap(xs, f) <==> exists i :: 0 <= i < |xs| && f(xs[i]) == Some(y)
    decreases |xs|
  {
    if xs != [] {
      var init := xs[..|xs| - 1];
      FilterMapMembers(init, f);
      assert forall i :: 0 <= i < |init| ==> init[i] == xs[i];
    }
  }

  lemma {:induction false} FlattenMembers<B>(xss: seq<seq<B>>)
    ensures forall y :: y in Flatten(xss) <==> exists i :: 0 <= i < |xss| && y in xss[i]
    decreases |xss|
  {
    if xss != [] {
      var init := xss[..|xss| - 1];
      FlattenMembers(init);
      assert forall i :: 0 <= i < |init| ==> init[i] == xss[i];
    }
  }

  /** What the nested loops produce: exactly the values `f(x)(e)` for the
      elements `x` that pass both tests and every `e`. */
  lemma KeptMembers<A, E, B>(xs: seq<A>, p: A -> bool, keep: A -> bool, es: seq<E>, f: A -> E -> Option<B>)
    ensures forall y :: y in Flatten(ForEachKept(Filter(xs, p), keep, es, f)) <==>
      exists x, e :: x in xs && p(x) && keep(x) && e in es && f(x)(e) == Some(y)
  {
    forall y
      ensures y in Flatten(ForEachKept(Filter(xs, p), keep, es, f)) <==>
        exists x, e :: x in xs && p(x) && keep(x) && e in es && f(x)(e) == Some(y)
    {
      if y in Flatten(ForEachKept(Filter(xs, p), keep, es, f)) {
        KeptFrom(xs, p, keep, es, f, y);
      }
      if exists x, e :: x in xs && p(x) && keep(x) && e in es && f(x)(e) == Some(y) {
        var x, e :| x in xs && p(x) && keep(x) && e in es && f(x)(e) == Some(y);
        KeptOf(xs, p, keep, es, f, x, e, y);
      }
    }
  }

  lemma KeptFrom<A, E, B>(xs: seq<A>, p: A -> bool, keep: A -> bool, es: seq<E>, f: A -> E -> Option<B>, y: B)
    requires y in Flatten(ForEachKept(Filter(xs, p), keep, es, f))
    ensures exists x, e :: x in xs && p(x) && keep(x) && e in es && f(x)(e) == Some(y)
  {
    var kept := Filter(xs, p);
    var parts := ForEachKept(kept, keep, es, f);
    FilterMembers(xs, p);
    FlattenMembers(parts);
    var i :| 0 <= i < |parts| && y in parts[i];
    FilterMapMembers(es, f(kept[i]));
    var j :| 0 <= j < |es| && f(kept[i])(es[j]) == Some(y);
    assert kept[i] in kept && es[j] in es;
  }

  lemma KeptOf<A, E, B>(xs: seq<A>, p: A -> bool, keep: A -> bool, es: seq<E>, f: A -> E -> Option<B>, x: A, e: E, y: B)
    requires x in xs && p(x) && keep(x) && e in es && f(x)(e) == Some(y)
    ensures y in Flatten(ForEachKept(Filter(xs, p), keep, es, f))
  {
    var kept := Filter(xs, p);
    var parts := ForEachKept(kept, keep, es, f);
    FilterMembers(xs, p);
    FlattenMembers(parts);
    assert x in kept;
    var i :| 0 <= i < |kept| && kept[i] == x;
    var j :| 0 <= j < |es| && es[j] == e;
    FilterMapMembers(es, f(x));
    assert y in parts[i];
  }

  /** Extending the list by one element extends each fold by that element's
      share, which is what a loop body that handles one element does. */
  lemma FilterAppend<A>(xs: seq<A>, x: A, p: A -> bool)
    ensures Filter(xs + [x], p) == Filter(xs, p) + (if p(x) then [x] else [])
  {
    assert (xs + [x])[..|xs|] == xs;
  }

  lemma FilterMapAppend<A, B>(xs: seq<A>, x: A, f: A -> Option<B>)
    ensures FilterMap(xs + [x], f) == FilterMap(xs, f) + match f(x) case Some(y) => [y] case None => []
  {
    assert (xs + [x])[..|xs|] == xs;
  }

  lemma ForEachKeptAppend<A, E, B>(xs: seq<A>, x: A, keep: A -> bool, es: seq<E>, f: A -> E -> Option<B>)
    ensures Flatten(ForEachKept(xs + [x], keep, es, f))
      == Flatten(ForEachKept(xs, keep, es, f)) + (if keep(x) then FilterMap(es, f(x)) else [])
  {
    var parts := ForEachKept(xs + [x], keep, es, f);
    assert parts[..|xs|] == ForEachKept(xs, keep, es, f);
  }

  /** `filter` keeps the order: filtering a concatenation filters each part. */
  lemma {:induction false} FilterConcat<A>(xs: seq<A>, ys: seq<A>, p: A -> bool)
    ensures Filter(xs + ys, p) == Filter(xs, p) + Filter(ys, p)
    decreases |ys|
  {
    if ys == [] {
      assert xs + ys == xs;
    } else {
      var init := ys[..|ys| - 1];
      FilterConcat(xs, init, p);
      assert (xs + ys)[..|xs + ys| - 1] == xs + init;
    }
  }

  /** When every element passes, `filter` returns the list unchanged; in any
      case it never lengthens it. */
  lemma {:induction false} FilterAll<A>(xs: seq<A>, p: A -> bool)
    ensures |Filter(xs, p)| <= |xs|
    ensures (forall i :: 0 <= i < |xs| ==> p(xs[i])) ==> Filter(xs, p) == xs
    decreases |xs|
  {
    if xs != [] {
      var init := xs[..|xs| - 1];
      FilterAll(init, p);
      if forall i :: 0 <= i < |xs| ==> p(xs[i]) {
        assert forall i :: 0 <= i < |init| ==> init[i] == xs[i];
        assert Filter(xs, p) == init + [xs[|xs| - 1]];
        assert xs == init + [xs[|xs| - 1]];
      }
    }
  }

  /** Filtering twice by the same test is filtering once. */
  lemma {:induction false} FilterIdempotent<A>(xs: seq<A>, p: A -> bool)
    ensures Filter(Filter(xs, p), p) == Filter(xs, p)
    decreases |xs|
  {
    if xs != [] {
      var init, last := xs[..|xs| - 1], xs[|xs| - 1];
      FilterIdempotent(init, p);
      var tail := if p(last) then [last] else [];
      FilterConcat(Filter(init, p), tail, p);
      assert Filter(tail, p) == tail by {
        if p(last) {
          assert [last][..0] == [];
        }
      }
    }
  }

  /** Elements kept by one test and refused by another: filtering by the
      second after the first leaves nothing. */
  lemma {:induction false} FilterDisjoint<A>(xs: seq<A>, p: A -> bool, q: A -> bool)
    requires forall x :: p(x) ==> !q(x)
    ensures Filter(Filter(xs, p), q) == []
    decreases |xs|
  {
    if xs != [] {
      var init, last := xs[..|xs| - 1], xs[|xs| - 1];
      FilterDisjoint(init, p, q);
      var tail := if p(last) then [last] else [];
      FilterConcat(Filter(init, p), tail, q);
      if p(last) {
        assert [last][..0] == [];
      }
    }
  }

  /** An element is kept as often as it occurs, when it passes. */
  lemma {:induction false} FilterMultiset<A>(xs: seq<A>, p: A -> bool, x: A)
    ensures multiset(Filter(xs, p))[x] == if p(x) then multiset(xs)[x] else 0
    decreases |xs|
  {
    if xs != [] {
      var init, last := xs[..|xs| - 1], xs[|xs| - 1];
      FilterMultiset(init, p, x);
      assert xs == init + [last];
    }
  }

  /** Filtering a list without repetitions leaves one without repetitions. */
  lemma {:induction false} FilterDistinct<A>(xs: seq<A>, p: A -> bool)
    requires Distinct(xs)
    ensures Distinct(Filter(xs, p))
    decreases |xs|
  {
    if xs != [] {
      var init, last := xs[..|xs| - 1], xs[|xs| - 1];
      FilterDistinct(init, p);
      FilterMembers(init, p);
      assert last !in init;
    }
  }

  /** Nothing is kept when `f` gives `None` for every element. */
  lemma {:induction false} FilterMapNone<A, B>(xs: seq<A>, f: A -> Option<B>)
    requires forall i :: 0 <= i < |xs| ==> f(xs[i]).None?
    ensures FilterMap(xs, f) == []
    decreases |xs|
  {
    if xs != [] {
      FilterMapNone(xs[..|xs| - 1], f);
    }
  }

  /** The lists `f` gives for the elements of `xs`, one after the other
      (`forEach` pushing any number of values per element). */
  function FlatMap<A, B>(xs: seq<A>, f: A -> seq<B>): seq<B> {
    if xs == [] then [] else FlatMap(xs[..|xs| - 1], f) + f(xs[|xs| - 1])
  }

  lemma {:induction false} FlatMapMembers<A, B>(xs: seq<A>, f: A -> seq<B>)
    ensures forall y :: y in FlatMap(xs, f) <==> exists i :: 0 <= i < |xs| && y in f(xs[i])
    decreases |xs|
  {
    if xs != [] {
      var init := xs[..|xs| - 1];
      FlatMapMembers(init, f);
      assert forall i :: 0 <= i < |init| ==> init[i] == xs[i];
    }
  }

  lemma FlatMapStep<A, B>(xs: seq<A>, i: nat, f: A -> seq<B>)
    requires i < |xs|
    ensures FlatMap(xs[..i + 1], f) == FlatMap(xs[..i], f) + f(xs[i])
  {
    assert xs[..i + 1][..i] == xs[..i];
  }

  lemma FilterMapStep<A, B>(xs: seq<A>, i: nat, f: A -> Option<B>)
    requires i < |xs|
    ensures FilterMap(xs[..i + 1], f) == FilterMap(xs[..i], f) + match f(xs[i]) case Some(y) => [y] case None => []
  {
    assert xs[..i + 1] == xs[..i] + [xs[i]];
    FilterMapAppend(xs[..i], xs[i], f);
  }
}
