/** Sequence helpers shared by the pages: JavaScript's `Array.prototype.filter`
    with a predicate, and the `filter((_, i) => i !== idx)` idiom that drops
    one position. */
module Seqs {

  /** `s.filter(p)`: the elements of `s` that satisfy `p`, in their order. */
  function Filter<T(!new)>(s: seq<T>, p: T -> bool): (r: seq<T>)
    ensures |r| <= |s|
    ensures forall x :: x in r <==> x in s && p(x)
    ensures forall x :: multiset(r)[x] == if p(x) then multiset(s)[x] else 0
    ensures forall k :: 0 <= k < |r| ==> p(r[k])
  {
    if s == [] then []
    else
      assert s == [s[0]] + s[1..];
      (if p(s[0]) then [s[0]] else []) + Filter(s[1..], p)
  }

  /** Filtering distributes over concatenation: together with the one-element
      case this says that `Filter` keeps the surviving elements in order. */
  lemma {:induction false} FilterConcat<T(!new)>(a: seq<T>, b: seq<T>, p: T -> bool)
    ensures Filter(a + b, p) == Filter(a, p) + Filter(b, p)
  {
    if a == [] {
      assert a + b == b;
    } else {
      assert (a + b)[0] == a[0];
      assert (a + b)[1..] == a[1..] + b;
      FilterConcat(a[1..], b, p);
    }
  }

  /** A filter that every element passes is the identity. */
  lemma {:induction false} FilterAll<T(!new)>(s: seq<T>, p: T -> bool)
    requires forall k :: 0 <= k < |s| ==> p(s[k])
    ensures Filter(s, p) == s
  {
    if s != [] {
      FilterAll(s[1..], p);
    }
  }

  /** A filter that no element passes yields the empty sequence. */
  lemma {:induction false} FilterNone<T(!new)>(s: seq<T>, p: T -> bool)
    requires forall k :: 0 <= k < |s| ==> !p(s[k])
    ensures Filter(s, p) == []
  {
    if s != [] {
      FilterNone(s[1..], p);
    }
  }

  /** Two filters applied in either order give the same sequence. */
  lemma {:induction false} FilterCommutes<T(!new)>(s: seq<T>, p: T -> bool, q: T -> bool)
    ensures Filter(Filter(s, p), q) == Filter(Filter(s, q), p)
  {
    if s != [] {
      FilterCommutes(s[1..], p, q);
      var head := if p(s[0]) then [s[0]] else [];
      FilterConcat(head, Filter(s[1..], p), q);
      var head' := if q(s[0]) then [s[0]] else [];
      FilterConcat(head', Filter(s[1..], q), p);
    }
  }

  /** Splitting by a predicate and its negation loses and duplicates nothing. */
  lemma FilterPartition<T(!new)>(s: seq<T>, p: T -> bool, q: T -> bool)
    requires forall x :: q(x) == !p(x)
    ensures multiset(Filter(s, p)) + multiset(Filter(s, q)) == multiset(s)
  {
    forall x
      ensures (multiset(Filter(s, p)) + multiset(Filter(s, q)))[x] == multiset(s)[x]
    {
    }
  }

  /** What passes a filter still passes after a second one. */
  lemma FilterKeeps<T(!new)>(s: seq<T>, p: T -> bool, q: T -> bool)
    ensures forall k :: 0 <= k < |Filter(Filter(s, p), q)| ==> p(Filter(Filter(s, p), q)[k])
  {
    var r := Filter(Filter(s, p), q);
    forall k | 0 <= k < |r|
      ensures p(r[k])
    {
      assert r[k] in Filter(s, p);
    }
  }

  /** A sequence whose first part passes `p` and whose second part fails it
      has every element that passes `p` before every element that fails it. */
  lemma ConcatGrouped<T>(a: seq<T>, b: seq<T>, p: T -> bool)
    requires forall k :: 0 <= k < |a| ==> p(a[k])
    requires forall k :: 0 <= k < |b| ==> !p(b[k])
    ensures forall i, j :: 0 <= i < j < |a + b| && p((a + b)[j]) ==> p((a + b)[i])
  {
    forall i, j | 0 <= i < j < |a + b| && p((a + b)[j])
      ensures p((a + b)[i])
    {
      if |a| <= j {
        assert false;
      }
      assert (a + b)[i] == a[i];
    }
  }

  /** `s.filter((_, i) => i !== idx)`: drop position `idx`; an index outside
      the sequence drops nothing. */
  function RemoveAt<T>(s: seq<T>, idx: nat): (r: seq<T>)
    ensures idx < |s| ==> |r| == |s| - 1
    ensures idx < |s| ==> forall k :: 0 <= k < idx ==> r[k] == s[k]
    ensures idx < |s| ==> forall k :: idx <= k < |r| ==> r[k] == s[k + 1]
    ensures |s| <= idx ==> r == s
  {
    if idx < |s| then s[..idx] + s[idx + 1..] else s
  }
}
