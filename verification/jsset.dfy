/** `Array.from(new Set(xs))`: the distinct elements of a sequence in order
    of first occurrence, as a JavaScript Set iterates them. */
module JsSet {

  predicate Distinct<T(==)>(s: seq<T>) {
    forall i, j :: 0 <= i < j < |s| ==> s[i] != s[j]
  }

  /** The distinct elements of `s`, each where it first occurs. */
  function Unique<T(==,!new)>(s: seq<T>): (r: seq<T>)
    ensures Distinct(r)
    ensures forall x :: x in r <==> x in s
  {
    if s == [] then []
    else
      var r := Unique(s[..|s| - 1]);
      assert forall x :: x in s <==> x in s[..|s| - 1] || x == s[|s| - 1] by {
        assert s == s[..|s| - 1] + [s[|s| - 1]];
      }
      if s[|s| - 1] in r then r else r + [s[|s| - 1]]
  }

  /** A sequence without repetitions has as many elements as its set. */
  lemma {:induction false} DistinctCardinality<T>(s: seq<T>)
    requires Distinct(s)
    ensures |set x | x in s| == |s|
    decreases |s|
  {
    if s != [] {
      var init := s[..|s| - 1];
      DistinctCardinality(init);
      assert (set x | x in s) == (set x | x in init) + {s[|s| - 1]} by {
        assert s == init + [s[|s| - 1]];
      }
      assert s[|s| - 1] !in init;
    }
  }

  /** `new Set(xs).size`: the number of distinct elements. */
  lemma UniqueSize<T(!new)>(s: seq<T>)
    ensures |Unique(s)| == |set x | x in s|
    ensures |Unique(s)| <= |s|
    ensures s != [] ==> |Unique(s)| >= 1
  {
    DistinctCardinality(Unique(s));
    assert (set x | x in Unique(s)) == set x | x in s;
    SetOfSeqSize(s);
    if s != [] {
      assert s[0] in Unique(s);
    }
  }

  lemma {:induction false} SetOfSeqSize<T>(s: seq<T>)
    ensures |set x | x in s| <= |s|
    decreases |s|
  {
    if s != [] {
      var init := s[..|s| - 1];
      SetOfSeqSize(init);
      assert (set x | x in s) == (set x | x in init) + {s[|s| - 1]} by {
        assert s == init + [s[|s| - 1]];
      }
    }
  }
}
