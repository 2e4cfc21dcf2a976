/** Order-preserving filters, maps and counts: the list comprehensions and the
    append-in-a-loop partitions of the pipeline are all instances of these. */
module Seqs {

  /** `[x for x in s if p(x)]`. */
  function Filter<T>(s: seq<T>, p: T -> bool): (r: seq<T>)
    ensures |r| <= |s|
  {
    if s == [] then [] else Filter(s[..|s| - 1], p) + (if p(s[|s| - 1]) then [s[|s| - 1]] else [])
  }

  /** The filter keeps exactly the elements that pass the test. */
  lemma {:induction false} FilterMembers<T>(s: seq<T>, p: T -> bool, x: T)
    ensures x in Filter(s, p) <==> x in s && p(x)
  {
    if s != [] {
      var init := s[..|s| - 1];
      assert s == init + [s[|s| - 1]];
      FilterMembers(init, p, x);
    }
  }

  /** `[f(x) for x in s]`. */
  function Map<T, U>(s: seq<T>, f: T -> U): (r: seq<U>)
    ensures |r| == |s|
  {
    if s == [] then [] else Map(s[..|s| - 1], f) + [f(s[|s| - 1])]
  }

  /** Element `i` of the map is the image of element `i`. */
  lemma {:induction false} MapAt<T, U>(s: seq<T>, f: T -> U, i: int)
    requires 0 <= i < |s|
    ensures Map(s, f)[i] == f(s[i])
  {
    if i < |s| - 1 {
      MapAt(s[..|s| - 1], f, i);
    }
  }

  /** `sum(1 for x in s if p(x))`. */
  function Count<T>(s: seq<T>, p: T -> bool): nat {
    if s == [] then 0 else Count(s[..|s| - 1], p) + (if p(s[|s| - 1]) then 1 else 0)
  }

  /** Appending one element extends the filter by that element alone. */
  lemma FilterSnoc<T>(s: seq<T>, x: T, p: T -> bool)
    ensures Filter(s + [x], p) == Filter(s, p) + (if p(x) then [x] else [])
  {
    assert (s + [x])[..|s|] == s;
  }

  lemma MapSnoc<T, U>(s: seq<T>, x: T, f: T -> U)
    ensures Map(s + [x], f) == Map(s, f) + [f(x)]
  {
    assert (s + [x])[..|s|] == s;
  }

  lemma CountSnoc<T>(s: seq<T>, x: T, p: T -> bool)
    ensures Count(s + [x], p) == Count(s, p) + (if p(x) then 1 else 0)
  {
    assert (s + [x])[..|s|] == s;
  }

  /** The counted elements are exactly the filtered ones. */
  lemma {:induction false} CountIsFilterLength<T>(s: seq<T>, p: T -> bool)
    ensures Count(s, p) == |Filter(s, p)|
  {
    if s != [] {
      CountIsFilterLength(s[..|s| - 1], p);
    }
  }

  /** A filter over a concatenation is the concatenation of the filters. */
  lemma {:induction false} FilterAppend<T>(a: seq<T>, b: seq<T>, p: T -> bool)
    ensures Filter(a + b, p) == Filter(a, p) + Filter(b, p)
    decreases |b|
  {
    if b == [] {
      assert a + b == a;
    } else {
      var b' := b[..|b| - 1];
      var x := b[|b| - 1];
      assert a + b == (a + b') + [x];
      assert b == b' + [x];
      FilterSnoc(a + b', x, p);
      FilterSnoc(b', x, p);
      FilterAppend(a, b', p);
    }
  }

  /** Prepending one element puts it in front of the filter when it passes. */
  lemma FilterCons<T>(x: T, s: seq<T>, p: T -> bool)
    ensures Filter([x] + s, p) == (if p(x) then [x] else []) + Filter(s, p)
  {
    var e: seq<T> := [];
    FilterSnoc(e, x, p);
    assert e + [x] == [x];
    FilterAppend([x], s, p);
  }

  /** Nothing passes, nothing is kept. */
  lemma {:induction false} FilterNone<T>(s: seq<T>, p: T -> bool)
    requires forall i :: 0 <= i < |s| ==> !p(s[i])
    ensures Filter(s, p) == []
  {
    if s != [] {
      FilterNone(s[..|s| - 1], p);
    }
  }

  /** A map over a concatenation is the concatenation of the maps. */
  lemma {:induction false} MapAppend<T, U>(a: seq<T>, b: seq<T>, f: T -> U)
    ensures Map(a + b, f) == Map(a, f) + Map(b, f)
    decreases |b|
  {
    if b == [] {
      assert a + b == a;
    } else {
      var b' := b[..|b| - 1];
      assert (a + b)[..|a + b| - 1] == a + b';
      MapAppend(a, b', f);
    }
  }

  /** The filter of a non-empty sequence, read from the front. */
  lemma FilterFront<T>(s: seq<T>, p: T -> bool)
    requires s != []
    ensures Filter(s, p) == (if p(s[0]) then [s[0]] else []) + Filter(s[1..], p)
  {
    assert s == [s[0]] + s[1..];
    FilterCons(s[0], s[1..], p);
  }

  /** The filter of a sequence cut in two. */
  lemma FilterSplit<T>(s: seq<T>, n: int, p: T -> bool)
    requires 0 <= n <= |s|
    ensures Filter(s, p) == Filter(s[..n], p) + Filter(s[n..], p)
  {
    assert s == s[..n] + s[n..];
    FilterAppend(s[..n], s[n..], p);
  }

  /** Two tests of which every element passes exactly one split the sequence:
      every element lands in exactly one of the two filters. */
  lemma {:induction false} PartitionTwo<T>(s: seq<T>, p: T -> bool, q: T -> bool)
    requires forall i :: 0 <= i < |s| ==> p(s[i]) != q(s[i])
    ensures |Filter(s, p)| + |Filter(s, q)| == |s|
    ensures multiset(Filter(s, p)) + multiset(Filter(s, q)) == multiset(s)
  {
    if s != [] {
      var init := s[..|s| - 1];
      assert s == init + [s[|s| - 1]];
      PartitionTwo(init, p, q);
    }
  }

  /** `ExactlyOne(a, b, c)`: one and only one of three tests holds. */
  predicate ExactlyOne(a: bool, b: bool, c: bool) {
    (a && !b && !c) || (!a && b && !c) || (!a && !b && c)
  }

  /** Three tests of which every element passes exactly one split the sequence,
      and so do the images of the three parts under any `f`. */
  lemma {:induction false} PartitionThree<T, U>(s: seq<T>, p: T -> bool, q: T -> bool, r: T -> bool, f: T -> U)
    requires forall i :: 0 <= i < |s| ==> ExactlyOne(p(s[i]), q(s[i]), r(s[i]))
    ensures |Filter(s, p)| + |Filter(s, q)| + |Filter(s, r)| == |s|
    ensures multiset(Map(Filter(s, p), f)) + multiset(Map(Filter(s, q), f)) + multiset(Map(Filter(s, r), f))
            == multiset(Map(s, f))
  {
    if s != [] {
      var init := s[..|s| - 1];
      var x := s[|s| - 1];
      assert s == init + [x];
      PartitionThree(init, p, q, r, f);
      assert ExactlyOne(p(x), q(x), r(x));
      PartitionStep(init, x, p, q, r, f);
    }
  }

  /** One step of `PartitionThree`: the new element joins exactly one part. */
  lemma PartitionStep<T, U>(init: seq<T>, x: T, p: T -> bool, q: T -> bool, r: T -> bool, f: T -> U)
    requires ExactlyOne(p(x), q(x), r(x))
    ensures |Filter(init + [x], p)| + |Filter(init + [x], q)| + |Filter(init + [x], r)|
            == |Filter(init, p)| + |Filter(init, q)| + |Filter(init, r)| + 1
    ensures multiset(Map(Filter(init + [x], p), f)) + multiset(Map(Filter(init + [x], q), f))
            + multiset(Map(Filter(init + [x], r), f))
            == multiset(Map(Filter(init, p), f)) + multiset(Map(Filter(init, q), f))
            + multiset(Map(Filter(init, r), f)) + multiset{f(x)}
  {
    StepPart(init, x, p, f);
    StepPart(init, x, q, f);
    StepPart(init, x, r, f);
  }

  /** Appending one element to the input of a filtered map appends its image
      when it passes the test, and nothing otherwise. */
  lemma StepPart<T, U>(init: seq<T>, x: T, p: T -> bool, f: T -> U)
    ensures |Filter(init + [x], p)| == |Filter(init, p)| + (if p(x) then 1 else 0)
    ensures multiset(Map(Filter(init + [x], p), f))
            == multiset(Map(Filter(init, p), f)) + (if p(x) then multiset{f(x)} else multiset{})
  {
    FilterSnoc(init, x, p);
    if p(x) {
      MapSnoc(Filter(init, p), x, f);
    } else {
      assert Filter(init + [x], p) == Filter(init, p);
    }
  }

  /** One loop step of a filter over a prefix of `s`. */
  lemma FilterStep<T>(s: seq<T>, i: int, p: T -> bool)
    requires 0 <= i < |s|
    ensures Filter(s[..i + 1], p) == Filter(s[..i], p) + (if p(s[i]) then [s[i]] else [])
  {
    assert s[..i + 1] == s[..i] + [s[i]];
    FilterSnoc(s[..i], s[i], p);
  }

  /** One loop step of a filtered map over a prefix of `s`: an element that
      passes the test appends its image ... */
  lemma MapFilterKeep<T, U>(s: seq<T>, i: int, p: T -> bool, f: T -> U)
    requires 0 <= i < |s| && p(s[i])
    ensures Map(Filter(s[..i + 1], p), f) == Map(Filter(s[..i], p), f) + [f(s[i])]
  {
    assert s[..i + 1] == s[..i] + [s[i]];
    FilterSnoc(s[..i], s[i], p);
    MapSnoc(Filter(s[..i], p), s[i], f);
  }

  /** ... and one that fails it leaves the result alone. */
  lemma MapFilterSkip<T, U>(s: seq<T>, i: int, p: T -> bool, f: T -> U)
    requires 0 <= i < |s| && !p(s[i])
    ensures Map(Filter(s[..i + 1], p), f) == Map(Filter(s[..i], p), f)
  {
    assert s[..i + 1] == s[..i] + [s[i]];
    FilterSnoc(s[..i], s[i], p);
    assert Filter(s[..i + 1], p) == Filter(s[..i], p);
  }
}
