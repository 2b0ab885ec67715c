/** Options, bytes, and facts about filtered sequences that the models share. */
module Sequences {

  datatype Option<+T> = None | Some(value: T)

  type Byte = b: nat | b < 256
  type Bytes = seq<Byte>

  /** The elements of `s` that satisfy `p`, in their order in `s`. */
  function Filter<T(!new)>(s: seq<T>, p: T -> bool): (r: seq<T>)
    ensures |r| <= |s|
    ensures forall x :: x in r <==> x in s && p(x)
  {
    if s == [] then [] else
    var rest := Filter(s[..|s| - 1], p);
    assert s == s[..|s| - 1] + [s[|s| - 1]];
    if p(s[|s| - 1]) then rest + [s[|s| - 1]] else rest
  }

  /** How many elements of `s` satisfy `p`. */
  function Count<T(!new)>(s: seq<T>, p: T -> bool): nat {
    |Filter(s, p)|
  }

  /** The first index whose element satisfies `p`; `|s|` when there is none. */
  function FirstIndex<T>(s: seq<T>, p: T -> bool): (i: nat)
    ensures i <= |s|
    ensures forall j :: 0 <= j < i ==> !p(s[j])
    ensures i < |s| ==> p(s[i])
  {
    if s == [] then 0
    else if p(s[0]) then 0
    else 1 + FirstIndex(s[1..], p)
  }

  lemma {:induction false} FilterConcat<T(!new)>(a: seq<T>, b: seq<T>, p: T -> bool)
    ensures Filter(a + b, p) == Filter(a, p) + Filter(b, p)
  {
    if b == [] {
      assert a + b == a;
    } else {
      FilterConcat(a, b[..|b| - 1], p);
      assert (a + b)[..|a + b| - 1] == a + b[..|b| - 1];
    }
  }

  lemma {:induction false} FilterSplit<T(!new)>(s: seq<T>, i: nat, p: T -> bool)
    requires i < |s|
    ensures Filter(s[..i + 1], p) == if p(s[i]) then Filter(s[..i], p) + [s[i]] else Filter(s[..i], p)
  {
    assert s[..i + 1][..i] == s[..i];
  }

  lemma {:induction false} FilterPrefix<T(!new)>(s: seq<T>, i: nat, p: T -> bool)
    requires i <= |s|
    ensures Filter(s[..i], p) <= Filter(s, p)
  {
    hide Filter;
    assert s == s[..i] + s[i..];
    FilterConcat(s[..i], s[i..], p);
  }

  lemma {:induction false} FilterAll<T(!new)>(s: seq<T>, p: T -> bool)
    requires forall i :: 0 <= i < |s| ==> p(s[i])
    ensures Filter(s, p) == s
  {
    if s != [] {
      FilterAll(s[..|s| - 1], p);
      assert s == s[..|s| - 1] + [s[|s| - 1]];
    }
  }

  /** Filtering by `p` and then by a `q` that implies `p` is filtering by `q`. */
  lemma {:induction false} FilterNarrow<T(!new)>(s: seq<T>, p: T -> bool, q: T -> bool)
    requires forall i :: 0 <= i < |s| && q(s[i]) ==> p(s[i])
    ensures Filter(Filter(s, p), q) == Filter(s, q)
  {
    if s != [] {
      FilterNarrow(s[..|s| - 1], p, q);
      if p(s[|s| - 1]) {
        FilterConcat(Filter(s[..|s| - 1], p), [s[|s| - 1]], q);
        assert Filter([s[|s| - 1]], q) == if q(s[|s| - 1]) then [s[|s| - 1]] else [];
      }
    }
  }

  /** The order in which two filters are applied does not matter. */
  lemma {:induction false} FilterCommutes<T(!new)>(s: seq<T>, p: T -> bool, q: T -> bool)
    ensures Filter(Filter(s, p), q) == Filter(Filter(s, q), p)
  {
    if s != [] {
      var rest, last := s[..|s| - 1], s[|s| - 1];
      FilterCommutes(rest, p, q);
      FilterConcat(Filter(rest, p), [last], q);
      FilterConcat(Filter(rest, q), [last], p);
      assert Filter([last], q) == if q(last) then [last] else [];
      assert Filter([last], p) == if p(last) then [last] else [];
    }
  }

  /** A relation between every earlier and later element survives filtering. */
  lemma {:induction false} FilterKeepsPairs<T(!new)>(s: seq<T>, p: T -> bool, r: (T, T) -> bool)
    requires forall i, j :: 0 <= i < j < |s| ==> r(s[i], s[j])
    ensures forall i, j :: 0 <= i < j < |Filter(s, p)| ==> r(Filter(s, p)[i], Filter(s, p)[j])
  {
    if s != [] {
      var rest, last := s[..|s| - 1], s[|s| - 1];
      FilterKeepsPairs(rest, p, r);
      forall x | x in Filter(rest, p) ensures r(x, last) {
        assert x in rest;
      }
    }
  }

  lemma {:induction false} CountLast<T(!new)>(s: seq<T>, p: T -> bool)
    requires s != []
    ensures Count(s, p) == Count(s[..|s| - 1], p) + if p(s[|s| - 1]) then 1 else 0
  {
  }

  lemma {:induction false} CountNothing<T(!new)>(p: T -> bool)
    ensures Count([], p) == 0
  {
  }

  /** Filtering commutes with a pointwise change that does not affect `p`. */
  lemma {:induction false} CountPointwise<T(!new)>(s: seq<T>, t: seq<T>, p: T -> bool, q: T -> bool)
    requires |s| == |t|
    requires forall i :: 0 <= i < |s| ==> (p(s[i]) ==> q(t[i]))
    ensures Count(s, p) <= Count(t, q)
  {
    hide Count;
    if s != [] {
      CountPointwise(s[..|s| - 1], t[..|t| - 1], p, q);
      CountLast(s, p);
      CountLast(t, q);
    } else {
      CountNothing(p);
    }
  }

  lemma {:induction false} FilterDroppedNothing<T(!new)>(s: seq<T>, p: T -> bool)
    requires |Filter(s, p)| == |s|
    ensures Filter(s, p) == s
    ensures forall x :: x in s ==> p(x)
  {
    if s != [] {
      FilterDroppedNothing(s[..|s| - 1], p);
      assert s == s[..|s| - 1] + [s[|s| - 1]];
    }
  }

  lemma {:induction false} CountAfterFilter<T(!new)>(s: seq<T>, keep: T -> bool, p: T -> bool)
    ensures Count(Filter(s, keep), p) <= Count(s, p)
  {
    FilterCommutes(s, keep, p);
  }

  lemma {:induction false} FilterOne<T(!new)>(x: T, p: T -> bool)
    ensures Filter([x], p) == if p(x) then [x] else []
  {
    assert [x][..0] == [];
  }

  lemma {:induction false} FilterSnoc<T(!new)>(s: seq<T>, x: T, p: T -> bool)
    ensures Filter(s + [x], p) == if p(x) then Filter(s, p) + [x] else Filter(s, p)
  {
    assert (s + [x])[..|s|] == s;
  }

  lemma {:induction false} FilterSplitAt<T(!new)>(s: seq<T>, at: nat, p: T -> bool)
    requires at <= |s|
    ensures Filter(s, p) == Filter(s[..at], p) + Filter(s[at..], p)
  {
    var a, b := s[..at], s[at..];
    assert s == a + b;
    FilterConcat(a, b, p);
  }

  lemma {:induction false} FilterInsert<T(!new)>(s: seq<T>, at: nat, x: T, p: T -> bool)
    requires at <= |s|
    ensures Filter(s[..at] + [x] + s[at..], p) ==
            Filter(s[..at], p) + (if p(x) then [x] else []) + Filter(s[at..], p)
    ensures Count(s[..at] + [x] + s[at..], p) == Count(s, p) + (if p(x) then 1 else 0)
  {
    FilterConcat(s[..at] + [x], s[at..], p);
    FilterConcat(s[..at], [x], p);
    FilterOne(x, p);
    FilterSplitAt(s, at, p);
  }

  lemma {:induction false} FirstIndexIs<T>(s: seq<T>, p: T -> bool, k: nat)
    requires k <= |s| && (forall j :: 0 <= j < k ==> !p(s[j])) && (k < |s| ==> p(s[k]))
    ensures FirstIndex(s, p) == k
  {
    var i := FirstIndex(s, p);
    assert i >= k;
    assert i <= k;
  }

  /** What lies before the first `q` of a sequence, seen through a filter that passes every `q`. */
  lemma {:induction false} FirstIndexThroughFilter<T(!new)>(s: seq<T>, p: T -> bool, q: T -> bool)
    requires forall i :: 0 <= i < |s| && q(s[i]) ==> p(s[i])
    ensures |Filter(s[..FirstIndex(s, q)], p)| == FirstIndex(Filter(s, p), q)
    ensures Filter(s[..FirstIndex(s, q)], p) + Filter(s[FirstIndex(s, q)..], p) == Filter(s, p)
  {
    hide Filter;
    var at := FirstIndex(s, q);
    var before, after := Filter(s[..at], p), Filter(s[at..], p);
    FilterSplitAt(s, at, p);
    assert forall x :: x in before ==> x in s[..at] && !q(x);
    if at < |s| {
      assert s[at..] == [s[at]] + s[at + 1..];
      FilterConcat([s[at]], s[at + 1..], p);
      FilterOne(s[at], p);
      assert after[0] == s[at];
    }
    FirstIndexIs(before + after, q, |before|);
  }

  /** Filtering sees through a pointwise change that does not affect the filter. */
  lemma {:induction false} FilterMapped<T(!new)>(s: seq<T>, t: seq<T>, p: T -> bool, f: T -> T)
    requires |s| == |t|
    requires forall i :: 0 <= i < |s| ==> t[i] == f(s[i]) && p(t[i]) == p(s[i])
    ensures |Filter(t, p)| == |Filter(s, p)|
    ensures forall k :: 0 <= k < |Filter(s, p)| ==> Filter(t, p)[k] == f(Filter(s, p)[k])
  {
    hide Count;
    if s != [] {
      FilterMapped(s[..|s| - 1], t[..|t| - 1], p, f);
    }
  }
}
