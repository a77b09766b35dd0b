/** Sequence helpers shared by every entity pass: order-preserving filtering
    (what an erase-in-loop leaves behind) and integer sums over a field. */
module Seqs {

  /** The elements of `s` that satisfy `p`, in their original order. */
  function Filter<T>(s: seq<T>, p: T -> bool): (r: seq<T>)
    ensures |r| <= |s|
    ensures forall i :: 0 <= i < |r| ==> p(r[i])
  {
    if s == [] then [] else (if p(s[0]) then [s[0]] else []) + Filter(s[1..], p)
  }

  /** `f` applied to every element, in order. */
  function Map<A, B>(s: seq<A>, f: A -> B): (r: seq<B>)
    ensures |r| == |s|
    ensures forall i :: 0 <= i < |s| ==> r[i] == f(s[i])
  {
    seq(|s|, i requires 0 <= i < |s| => f(s[i]))
  }

  /** `s` with the element at index `j` removed, as `vector::erase` leaves it:
      the elements before `j` stay put and those after shift down by one. */
  function Erase<T>(s: seq<T>, j: nat): (r: seq<T>)
    requires j < |s|
    ensures |r| == |s| - 1
    ensures r[..j] == s[..j] && r[j..] == s[j + 1..]
  {
    s[..j] + s[j + 1..]
  }

  /** Erasing loses exactly the erased element. */
  lemma EraseMultiset<T>(s: seq<T>, j: nat)
    requires j < |s|
    ensures multiset(Erase(s, j)) + multiset{s[j]} == multiset(s)
  {
    assert s == s[..j] + [s[j]] + s[j + 1..];
  }

  /** The sum of `f` over the elements of `s`. */
  function Sum<T>(s: seq<T>, f: T -> int): int
  {
    if s == [] then 0 else f(s[0]) + Sum(s[1..], f)
  }

  /** An element survives filtering exactly when it was present and satisfies `p`. */
  lemma {:induction false} FilterMembership<T>(s: seq<T>, p: T -> bool, x: T)
    ensures x in Filter(s, p) <==> x in s && p(x)
  {
    if s != [] {
      FilterMembership(s[1..], p, x);
      assert s == [s[0]] + s[1..];
    }
  }

  /** Filtering distributes over concatenation: relative order is kept. */
  lemma {:induction false} FilterAppend<T>(a: seq<T>, b: seq<T>, p: T -> bool)
    ensures Filter(a + b, p) == Filter(a, p) + Filter(b, p)
  {
    if a == [] {
      assert a + b == b;
    } else {
      assert (a + b)[1..] == a[1..] + b;
      FilterAppend(a[1..], b, p);
    }
  }

  /** Filtering a sequence with a given first element. */
  lemma FilterCons<T>(x: T, t: seq<T>, p: T -> bool)
    ensures Filter([x] + t, p) == (if p(x) then [x] else []) + Filter(t, p)
  {
    assert ([x] + t)[1..] == t;
  }

  /** Filtering a prefix one element longer adds at most that element. */
  lemma FilterSnoc<T>(s: seq<T>, k: nat, p: T -> bool)
    requires k < |s|
    ensures Filter(s[..k + 1], p) == Filter(s[..k], p) + (if p(s[k]) then [s[k]] else [])
  {
    assert s[..k + 1] == s[..k] + [s[k]];
    FilterAppend(s[..k], [s[k]], p);
    assert Filter([s[k]], p) == (if p(s[k]) then [s[k]] else []) + Filter([s[k]][1..], p);
  }

  /** A filter that keeps everything is the identity. */
  lemma {:induction false} FilterKeepsAll<T>(s: seq<T>, p: T -> bool)
    requires forall i :: 0 <= i < |s| ==> p(s[i])
    ensures Filter(s, p) == s
  {
    if s != [] {
      FilterKeepsAll(s[1..], p);
    }
  }

  /** Two predicates that agree on the elements of `s` filter it alike. */
  lemma {:induction false} FilterExt<T>(s: seq<T>, p: T -> bool, q: T -> bool)
    requires forall i :: 0 <= i < |s| ==> p(s[i]) == q(s[i])
    ensures Filter(s, p) == Filter(s, q)
  {
    if s != [] {
      FilterExt(s[1..], p, q);
    }
  }

  /** Filtering twice is filtering once by the conjunction. */
  lemma {:induction false} FilterFilter<T>(s: seq<T>, p: T -> bool, q: T -> bool, both: T -> bool)
    requires forall i :: 0 <= i < |s| ==> both(s[i]) == (p(s[i]) && q(s[i]))
    ensures Filter(Filter(s, p), q) == Filter(s, both)
  {
    if s != [] {
      FilterFilter(s[1..], p, q, both);
      var head := if p(s[0]) then [s[0]] else [];
      FilterAppend(head, Filter(s[1..], p), q);
      if p(s[0]) {
        assert Filter(head, q) == (if q(s[0]) then [s[0]] else []) + Filter(head[1..], q);
      }
    }
  }

  /** Filtering by `p` and by its complement splits `s` into two parts that
      together hold every element exactly as often as `s` does. */
  lemma {:induction false} FilterPartition<T>(s: seq<T>, p: T -> bool, q: T -> bool)
    requires forall i :: 0 <= i < |s| ==> q(s[i]) == !p(s[i])
    ensures multiset(Filter(s, p)) + multiset(Filter(s, q)) == multiset(s)
    ensures |Filter(s, p)| + |Filter(s, q)| == |s|
  {
    if s != [] {
      FilterPartition(s[1..], p, q);
      assert s == [s[0]] + s[1..];
    }
  }

  /** Sums add up over concatenation. */
  lemma {:induction false} SumAppend<T>(a: seq<T>, b: seq<T>, f: T -> int)
    ensures Sum(a + b, f) == Sum(a, f) + Sum(b, f)
  {
    if a == [] {
      assert a + b == b;
    } else {
      assert (a + b)[1..] == a[1..] + b;
      SumAppend(a[1..], b, f);
    }
  }

  /** Erasing takes exactly the erased element's share off a sum. */
  lemma EraseSum<T>(s: seq<T>, j: nat, f: T -> int)
    requires j < |s|
    ensures Sum(Erase(s, j), f) + f(s[j]) == Sum(s, f)
  {
    var a, rest, b := s[..j], s[j..], s[j + 1..];
    assert s == a + rest;
    assert rest == [s[j]] + b;
    SumAppend(a, rest, f);
    SumCons(s[j], b, f);
    SumAppend(a, b, f);
  }

  lemma SumCons<T>(x: T, b: seq<T>, f: T -> int)
    ensures Sum([x] + b, f) == f(x) + Sum(b, f)
  {
    assert ([x] + b)[1..] == b;
  }

  /** One step of a walk that erases or keeps `r[i]`, where the unvisited
      part `r[i..]` is still the suffix `s[k..]` of the original. */
  lemma WalkStep<T>(r: seq<T>, i: nat, s: seq<T>, k: nat)
    requires i < |r| && k < |s| && r[i..] == s[k..]
    ensures r[i] == s[k]
    ensures Erase(r, i)[..i] == r[..i] && Erase(r, i)[i..] == s[k + 1..]
    ensures r[..i + 1] == r[..i] + [r[i]] && r[i + 1..] == s[k + 1..]
  {
    assert r[i] == r[i..][0];
    assert r[i + 1..] == r[i..][1..];
  }

  lemma AppendAssoc<T>(a: seq<T>, b: seq<T>, c: seq<T>)
    ensures (a + b) + c == a + (b + c)
  {
  }

  /** Equal sequences with the same head and tail have the same middle. */
  lemma CancelAround<T>(p: seq<T>, x: seq<T>, y: seq<T>, q: seq<T>)
    requires p + x + q == p + y + q
    ensures x == y
  {
    assert |x| == |y|;
    assert x == (p + x + q)[|p|..|p| + |x|];
    assert y == (p + y + q)[|p|..|p| + |y|];
  }

  /** Overwriting `r[i]` extends the prefix by the new value and keeps the rest. */
  lemma SetStep<T>(r: seq<T>, i: nat, x: T)
    requires i < |r|
    ensures r[i := x][..i + 1] == r[..i] + [x] && r[i := x][i + 1..] == r[i + 1..]
  {
  }

  /** Summing over a filtered prefix one element longer adds at most that
      element's share. */
  lemma SumFilterSnoc<T>(s: seq<T>, k: nat, p: T -> bool, f: T -> int)
    requires k < |s|
    ensures Sum(Filter(s[..k + 1], p), f) == Sum(Filter(s[..k], p), f) + (if p(s[k]) then f(s[k]) else 0)
  {
    FilterSnoc(s, k, p);
    var last := if p(s[k]) then [s[k]] else [];
    SumAppend(Filter(s[..k], p), last, f);
    if p(s[k]) {
      SumCons(s[k], [], f);
      assert [s[k]] + [] == [s[k]];
    }
  }

  /** The two halves of a partition carry the whole sum between them. */
  lemma {:induction false} SumPartition<T>(s: seq<T>, p: T -> bool, q: T -> bool, f: T -> int)
    requires forall i :: 0 <= i < |s| ==> q(s[i]) == !p(s[i])
    ensures Sum(Filter(s, p), f) + Sum(Filter(s, q), f) == Sum(s, f)
  {
    if s != [] {
      SumPartition(s[1..], p, q, f);
      var hp := if p(s[0]) then [s[0]] else [];
      var hq := if q(s[0]) then [s[0]] else [];
      SumAppend(hp, Filter(s[1..], p), f);
      SumAppend(hq, Filter(s[1..], q), f);
    }
  }
}
