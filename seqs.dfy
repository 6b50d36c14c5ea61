/** Sequence operations shared by the page extractors and the team filter. */
module Seqs {
  import opened Wrappers

  /**
   * The elements of `s` that satisfy `p`, in their original order (a list
   * comprehension with a condition). Defined from the back, the way a loop
   * that appends builds it.
   */
  function Filter<T(!new)>(p: T -> bool, s: seq<T>): (r: seq<T>)
    ensures |r| <= |s|
  {
    if s == [] then []
    else Filter(p, s[..|s| - 1]) + (if p(s[|s| - 1]) then [s[|s| - 1]] else [])
  }

  /**
   * What the filter keeps: exactly the elements that satisfy `p`, each as many
   * times as it occurs in `s`; all other elements are dropped.
   */
  lemma {:induction false} FilterSpec<T(!new)>(p: T -> bool, s: seq<T>)
    ensures forall x :: x in Filter(p, s) <==> x in s && p(x)
    ensures forall x :: multiset(Filter(p, s))[x] == if p(x) then multiset(s)[x] else 0
  {
    if s != [] {
      var init, last := s[..|s| - 1], s[|s| - 1];
      assert s == init + [last];
      FilterSpec(p, init);
    }
  }

  /** Filtering commutes with concatenation, so the kept elements stay in their original order. */
  lemma {:induction false} FilterConcat<T(!new)>(p: T -> bool, a: seq<T>, b: seq<T>)
    ensures Filter(p, a + b) == Filter(p, a) + Filter(p, b)
  {
    if b == [] {
      assert a + b == a;
    } else {
      var init := b[..|b| - 1];
      assert (a + b)[..|a + b| - 1] == a + init;
      FilterConcat(p, a, init);
    }
  }

  /** Filtering a single element keeps it exactly when it satisfies `p`. */
  lemma FilterSingleton<T(!new)>(p: T -> bool, x: T)
    ensures Filter(p, [x]) == if p(x) then [x] else []
  {
    assert [x][..0] == [];
  }

  /** The first `n` elements of `s`, or all of `s` when it is shorter. */
  function Take<T>(s: seq<T>, n: nat): (r: seq<T>)
    ensures |r| == if n < |s| then n else |s|
    ensures r == s[..|r|]
  {
    if n < |s| then s[..n] else s
  }

  /**
   * Applies `parse` to every element of `s`, in order, and keeps the results
   * that are present (the `if data: out.append(data)` pattern).
   */
  function Collect<T, R>(parse: T -> Option<R>, s: seq<T>): (r: seq<R>)
    ensures |r| <= |s|
  {
    if s == [] then []
    else
      Collect(parse, s[..|s| - 1]) +
      (match parse(s[|s| - 1]) case Some(v) => [v] case None => [])
  }

  /** Collecting commutes with concatenation. */
  lemma {:induction false} CollectConcat<T, R>(parse: T -> Option<R>, a: seq<T>, b: seq<T>)
    ensures Collect(parse, a + b) == Collect(parse, a) + Collect(parse, b)
  {
    if b == [] {
      assert a + b == a;
    } else {
      var init := b[..|b| - 1];
      assert (a + b)[..|a + b| - 1] == a + init;
      CollectConcat(parse, a, init);
    }
  }

  /** Every collected result is the parse of some element of `s`. */
  lemma {:induction false} CollectFrom<T, R>(parse: T -> Option<R>, s: seq<T>, v: R)
    requires v in Collect(parse, s)
    ensures exists x :: x in s && parse(x) == Some(v)
  {
    if s != [] {
      var init, last := s[..|s| - 1], s[|s| - 1];
      if v in Collect(parse, init) {
        CollectFrom(parse, init, v);
        var x :| x in init && parse(x) == Some(v);
        assert x in s;
      } else {
        assert parse(last) == Some(v);
      }
    }
  }

  /**
   * When `parse` never fails on `s`, nothing is dropped: the i-th result is the
   * parse of the i-th element.
   */
  lemma {:induction false} CollectTotal<T, R>(parse: T -> Option<R>, s: seq<T>)
    requires forall i :: 0 <= i < |s| ==> parse(s[i]).Some?
    ensures |Collect(parse, s)| == |s|
    ensures forall i :: 0 <= i < |s| ==> Collect(parse, s)[i] == parse(s[i]).value
  {
    if s != [] {
      CollectTotal(parse, s[..|s| - 1]);
    }
  }
}
