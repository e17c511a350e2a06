/** A JavaScript `Map` with string keys, as the parser's `weekMap` uses it:
    a sequence of entries in insertion order, where `set` on a present key
    replaces the value and keeps the entry where it was. */
module JsMap {
  import opened Wrappers
  import opened JsSet

  function Keys<V>(m: seq<(string, V)>): (r: seq<string>)
    ensures |r| == |m|
    ensures forall i :: 0 <= i < |m| ==> r[i] == m[i].0
  {
    if m == [] then [] else [m[0].0] + Keys(m[1..])
  }

  /** `m.get(k)`. */
  function Get<V>(m: seq<(string, V)>, k: string): Option<V> {
    if m == [] then None
    else if m[0].0 == k then Some(m[0].1)
    else Get(m[1..], k)
  }

  /** `m.set(k, v)`. */
  function Set<V>(m: seq<(string, V)>, k: string, v: V): seq<(string, V)> {
    if m == [] then [(k, v)]
    else if m[0].0 == k then [(k, v)] + m[1..]
    else [m[0]] + Set(m[1..], k, v)
  }

  /** `set` appends a new key at the end and leaves the key order alone for
      a key already present. */
  lemma {:induction false} SetKeys<V>(m: seq<(string, V)>, k: string, v: V)
    ensures Keys(Set(m, k, v)) == if k in Keys(m) then Keys(m) else Keys(m) + [k]
    decreases |m|
  {
    if m != [] && m[0].0 != k {
      SetKeys(m[1..], k, v);
      assert Keys(m) == [m[0].0] + Keys(m[1..]);
    }
  }

  /** After `set`, `get` of that key gives the new value and every other key
      is unaffected. */
  lemma {:induction false} SetGet<V>(m: seq<(string, V)>, k: string, v: V, k': string)
    ensures Get(Set(m, k, v), k') == if k' == k then Some(v) else Get(m, k')
    decreases |m|
  {
    if m != [] && m[0].0 != k {
      SetGet(m[1..], k, v, k');
    }
  }

  /** Every entry after `set` is the new one or was there before. */
  lemma {:induction false} SetEntries<V>(m: seq<(string, V)>, k: string, v: V)
    ensures (k, v) in Set(m, k, v)
    ensures forall e :: e in Set(m, k, v) ==> e == (k, v) || e in m
    decreases |m|
  {
    if m != [] && m[0].0 != k {
      SetEntries(m[1..], k, v);
    }
  }

  /** In a map with distinct keys an entry is exactly what `get` finds. */
  lemma {:induction false} EntryGet<V>(m: seq<(string, V)>, k: string, v: V)
    requires Distinct(Keys(m))
    ensures (k, v) in m <==> Get(m, k) == Some(v)
    decreases |m|
  {
    if m != [] {
      assert Keys(m[1..]) == Keys(m)[1..];
      assert Distinct(Keys(m[1..]));
      if m[0].0 == k {
        forall i | 0 <= i < |m[1..]|
          ensures m[1..][i].0 != k
        {
          assert Keys(m)[i + 1] == m[1..][i].0;
        }
      } else {
        EntryGet(m[1..], k, v);
      }
    }
  }

  /** The map that a run of `set` calls builds, one optional call per step,
      starting from an empty map. */
  function Build<V>(steps: seq<Option<(string, V)>>): seq<(string, V)> {
    if steps == [] then []
    else
      var m := Build(steps[..|steps| - 1]);
      match steps[|steps| - 1]
      case None => m
      case Some(e) => Set(m, e.0, e.1)
  }

  /** The keys the steps set, in order, repeats included. */
  function StepKeys<V>(steps: seq<Option<(string, V)>>): seq<string> {
    if steps == [] then []
    else
      StepKeys(steps[..|steps| - 1])
        + match steps[|steps| - 1] case None => [] case Some(e) => [e.0]
  }

  /** The keys of the built map are the keys set, each once, in the order
      of their first `set`. */
  lemma {:induction false} BuildKeys<V>(steps: seq<Option<(string, V)>>)
    ensures Keys(Build(steps)) == Unique(StepKeys(steps))
    decreases |steps|
  {
    if steps != [] {
      var init := steps[..|steps| - 1];
      BuildKeys(init);
      match steps[|steps| - 1]
      case None =>
        assert StepKeys(steps) == StepKeys(init) + [];
        assert StepKeys(steps) == StepKeys(init);
      case Some(e) =>
        var sk := StepKeys(steps);
        assert sk == StepKeys(init) + [e.0];
        assert sk[..|sk| - 1] == StepKeys(init);
        SetKeys(Build(init), e.0, e.1);
    }
  }

  /** The map is empty exactly when no step set anything. */
  lemma {:induction false} BuildEmpty<V>(steps: seq<Option<(string, V)>>)
    ensures Build(steps) == [] <==> forall j :: 0 <= j < |steps| ==> steps[j].None?
    decreases |steps|
  {
    if steps != [] {
      var init := steps[..|steps| - 1];
      BuildEmpty(init);
      assert forall j :: 0 <= j < |init| ==> init[j] == steps[j];
      if steps[|steps| - 1].Some? {
        var e := steps[|steps| - 1].value;
        SetEntries(Build(init), e.0, e.1);
      }
    }
  }

  /** Every entry of the map is one that some step set. */
  lemma {:induction false} BuildEntries<V>(steps: seq<Option<(string, V)>>)
    ensures forall e :: e in Build(steps) ==> exists j :: 0 <= j < |steps| && steps[j] == Some(e)
    decreases |steps|
  {
    if steps != [] {
      var init := steps[..|steps| - 1];
      BuildEntries(init);
      assert forall j :: 0 <= j < |init| ==> init[j] == steps[j];
      if steps[|steps| - 1].Some? {
        var e := steps[|steps| - 1].value;
        SetEntries(Build(init), e.0, e.1);
      }
    }
  }

  /** The last `set` of a key decides its entry. */
  lemma {:induction false} BuildLast<V>(steps: seq<Option<(string, V)>>, j: nat)
    requires j < |steps| && steps[j].Some?
    requires forall j' :: j < j' < |steps| && steps[j'].Some? ==> steps[j'].value.0 != steps[j].value.0
    ensures steps[j].value in Build(steps)
    decreases |steps|
  {
    var init := steps[..|steps| - 1];
    var f := steps[j].value;
    if j == |steps| - 1 {
      SetEntries(Build(init), f.0, f.1);
    } else {
      assert init[j] == steps[j];
      BuildLast(init, j);
      if steps[|steps| - 1].Some? {
        var e := steps[|steps| - 1].value;
        SetNotTouched(Build(init), e.0, e.1, f);
      }
    }
  }

  /** `set` of one key keeps the entries of every other key. */
  lemma {:induction false} SetNotTouched<V>(m: seq<(string, V)>, k: string, v: V, f: (string, V))
    requires f in m && f.0 != k
    ensures f in Set(m, k, v)
    decreases |m|
  {
    if m[0] != f {
      SetNotTouched(m[1..], k, v, f);
    }
  }
}
