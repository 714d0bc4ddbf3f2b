/** Order-preserving filtering of lists, as `Array.prototype.filter` does it,
    and the facts about it that every filter stage of the practice views uses. */
module Filtering {

  /** `s.filter(p)`: the elements of `s` satisfying `p`, in their original order. */
  function Filter<T(==)>(s: seq<T>, p: T -> bool): (r: seq<T>)
    ensures |r| <= |s|
    ensures forall i :: 0 <= i < |r| ==> r[i] in s && p(r[i])
    ensures forall i :: 0 <= i < |s| && p(s[i]) ==> s[i] in r
  {
    if s == [] then [] else (if p(s[0]) then [s[0]] else []) + Filter(s[1..], p)
  }

  /** `r` is obtained from `s` by deleting elements, keeping the order of the rest. */
  ghost predicate IsSubsequence<T>(r: seq<T>, s: seq<T>)
    decreases |s|
  {
    r == [] || (s != [] && ((r[0] == s[0] && IsSubsequence(r[1..], s[1..])) || IsSubsequence(r, s[1..])))
  }

  /** `s` is a merge of `a` and `b` that keeps the order of each. */
  ghost predicate IsInterleaving<T>(s: seq<T>, a: seq<T>, b: seq<T>)
    decreases |s|
  {
    if s == [] then a == [] && b == []
    else (a != [] && a[0] == s[0] && IsInterleaving(s[1..], a[1..], b)) ||
         (b != [] && b[0] == s[0] && IsInterleaving(s[1..], a, b[1..]))
  }

  lemma {:induction false} FilterIsSubsequence<T>(s: seq<T>, p: T -> bool)
    ensures IsSubsequence(Filter(s, p), s)
  {
    if s != [] {
      FilterIsSubsequence(s[1..], p);
      var r := Filter(s[1..], p);
      if p(s[0]) {
        assert Filter(s, p) == [s[0]] + r;
        assert ([s[0]] + r)[1..] == r;
      } else {
        assert Filter(s, p) == r;
      }
    }
  }

  lemma {:induction false} SubsequenceLength<T>(r: seq<T>, s: seq<T>)
    requires IsSubsequence(r, s)
    ensures |r| <= |s|
    decreases |s|
  {
    if r != [] {
      if r[0] == s[0] && IsSubsequence(r[1..], s[1..]) {
        SubsequenceLength(r[1..], s[1..]);
      } else {
        SubsequenceLength(r, s[1..]);
      }
    }
  }

  /** Filtering depends only on what the predicate says about the list's own elements. */
  lemma {:induction false} FilterExt<T>(s: seq<T>, p: T -> bool, q: T -> bool)
    requires forall x :: x in s ==> p(x) == q(x)
    ensures Filter(s, p) == Filter(s, q)
  {
    if s != [] {
      assert forall x :: x in s[1..] ==> x in s;
      FilterExt(s[1..], p, q);
    }
  }

  /** Two filters in a row are one filter by the conjunction. */
  lemma {:induction false} FilterCompose<T>(s: seq<T>, p: T -> bool, q: T -> bool, pq: T -> bool)
    requires forall x :: x in s ==> pq(x) == (p(x) && q(x))
    ensures Filter(Filter(s, p), q) == Filter(s, pq)
  {
    if s != [] {
      assert forall x :: x in s[1..] ==> x in s;
      FilterCompose(s[1..], p, q, pq);
      var r := Filter(s[1..], p);
      if p(s[0]) {
        assert Filter(s, p) == [s[0]] + r;
        assert ([s[0]] + r)[1..] == r;
      } else {
        assert Filter(s, p) == r;
      }
    }
  }

  /** A predicate that holds of every element keeps the whole list. */
  lemma {:induction false} FilterKeepsAll<T>(s: seq<T>, p: T -> bool)
    requires forall x :: x in s ==> p(x)
    ensures Filter(s, p) == s
  {
    if s != [] {
      assert forall x :: x in s[1..] ==> x in s;
      FilterKeepsAll(s[1..], p);
    }
  }

  /** A predicate and its negation split a list into two parts whose
      order-preserving merge is the list itself. */
  lemma {:induction false} FilterSplit<T>(s: seq<T>, p: T -> bool, notP: T -> bool)
    requires forall x :: x in s ==> notP(x) == !p(x)
    ensures IsInterleaving(s, Filter(s, p), Filter(s, notP))
    ensures |Filter(s, p)| + |Filter(s, notP)| == |s|
  {
    if s != [] {
      assert forall x :: x in s[1..] ==> x in s;
      FilterSplit(s[1..], p, notP);
      var a, b := Filter(s[1..], p), Filter(s[1..], notP);
      var fa, fb := Filter(s, p), Filter(s, notP);
      if p(s[0]) {
        assert fa == [s[0]] + a && fb == b;
        assert fa[0] == s[0] && fa[1..] == a;
      } else {
        assert fa == a && fb == [s[0]] + b;
        assert fb[0] == s[0] && fb[1..] == b;
      }
    }
  }

  /** A predicate and its negation split a list into two disjoint parts whose
      order-preserving merge is the list itself. */
  lemma FilterPartition<T>(s: seq<T>, p: T -> bool, notP: T -> bool)
    requires forall x :: x in s ==> notP(x) == !p(x)
    ensures IsInterleaving(s, Filter(s, p), Filter(s, notP))
    ensures |Filter(s, p)| + |Filter(s, notP)| == |s|
    ensures forall x :: x in Filter(s, p) ==> x !in Filter(s, notP)
  {
    FilterSplit(s, p, notP);
    var a, b := Filter(s, p), Filter(s, notP);
    forall x | x in a ensures x !in b {
      var i :| 0 <= i < |a| && a[i] == x;
    }
  }

  /** The list `s` paired with positions: element `i` is `(s[i], i)`. */
  function Enumerate<T>(s: seq<T>): (r: seq<(T, nat)>)
  {
    seq(|s|, i requires 0 <= i < |s| => (s[i], i))
  }

  /** The elements of a list of (element, position) pairs. */
  function Firsts<T>(ps: seq<(T, nat)>): (r: seq<T>)
    ensures |r| == |ps|
    ensures forall j :: 0 <= j < |ps| ==> r[j] == ps[j].0
  {
    if ps == [] then [] else [ps[0].0] + Firsts(ps[1..])
  }

  /** `s.filter((item, index) => p(item, index))`: the callback sees each
      element's position in `s` itself. */
  function FilterIndexed<T(==)>(s: seq<T>, p: (T, nat) -> bool): (r: seq<T>)
    ensures |r| <= |s|
    ensures forall j :: 0 <= j < |r| ==> r[j] in s
  {
    Firsts(Filter(Enumerate(s), (e: (T, nat)) => p(e.0, e.1)))
  }

  lemma FirstsEnumerate<T>(s: seq<T>)
    ensures Firsts(Enumerate(s)) == s
  {
  }

  lemma {:induction false} FirstsSubsequence<T>(r: seq<(T, nat)>, s: seq<(T, nat)>)
    requires IsSubsequence(r, s)
    ensures IsSubsequence(Firsts(r), Firsts(s))
    decreases |s|
  {
    if r != [] {
      assert Firsts(s)[1..] == Firsts(s[1..]);
      if r[0] == s[0] && IsSubsequence(r[1..], s[1..]) {
        FirstsSubsequence(r[1..], s[1..]);
        assert Firsts(r)[1..] == Firsts(r[1..]);
      } else {
        FirstsSubsequence(r, s[1..]);
      }
    }
  }

  lemma {:induction false} FirstsInterleaving<T>(s: seq<(T, nat)>, a: seq<(T, nat)>, b: seq<(T, nat)>)
    requires IsInterleaving(s, a, b)
    ensures IsInterleaving(Firsts(s), Firsts(a), Firsts(b))
    decreases |s|
  {
    if s != [] {
      assert Firsts(s)[1..] == Firsts(s[1..]);
      if a != [] && a[0] == s[0] && IsInterleaving(s[1..], a[1..], b) {
        FirstsInterleaving(s[1..], a[1..], b);
        assert Firsts(a)[1..] == Firsts(a[1..]);
      } else {
        FirstsInterleaving(s[1..], a, b[1..]);
        assert Firsts(b)[1..] == Firsts(b[1..]);
      }
    }
  }

  /** Filtering the elements is filtering the pairs by their element. */
  lemma {:induction false} FilterFirsts<T>(ps: seq<(T, nat)>, q: T -> bool, q': ((T, nat)) -> bool)
    requires forall e :: e in ps ==> q'(e) == q(e.0)
    ensures Filter(Firsts(ps), q) == Firsts(Filter(ps, q'))
  {
    if ps != [] {
      assert forall e :: e in ps[1..] ==> e in ps;
      FilterFirsts(ps[1..], q, q');
      assert Firsts(ps) == [ps[0].0] + Firsts(ps[1..]);
      assert ([ps[0].0] + Firsts(ps[1..]))[1..] == Firsts(ps[1..]);
      if q'(ps[0]) {
        assert Filter(ps, q') == [ps[0]] + Filter(ps[1..], q');
      } else {
        assert Filter(ps, q') == Filter(ps[1..], q');
      }
    }
  }

  /** What `FilterIndexed` keeps: exactly the elements at positions the callback accepts. */
  lemma FilterIndexedMembership<T>(s: seq<T>, p: (T, nat) -> bool, x: T)
    ensures x in FilterIndexed(s, p) <==> exists i :: 0 <= i < |s| && s[i] == x && p(x, i)
  {
    var pe := (e: (T, nat)) => p(e.0, e.1);
    var f := Filter(Enumerate(s), pe);
    if x in FilterIndexed(s, p) {
      var j :| 0 <= j < |f| && Firsts(f)[j] == x;
      assert f[j] in Enumerate(s);
      var i :| 0 <= i < |s| && Enumerate(s)[i] == f[j];
      assert s[i] == x && p(x, i);
    }
    if exists i :: 0 <= i < |s| && s[i] == x && p(x, i) {
      var i :| 0 <= i < |s| && s[i] == x && p(x, i);
      assert Enumerate(s)[i] in Enumerate(s);
      assert (x, i) in f;
      var j :| 0 <= j < |f| && f[j] == (x, i);
      assert Firsts(f)[j] == x;
    }
  }

  /** A `FilterIndexed` result keeps the original order. */
  lemma FilterIndexedIsSubsequence<T>(s: seq<T>, p: (T, nat) -> bool)
    ensures IsSubsequence(FilterIndexed(s, p), s)
  {
    var pe := (e: (T, nat)) => p(e.0, e.1);
    FilterIsSubsequence(Enumerate(s), pe);
    FirstsSubsequence(Filter(Enumerate(s), pe), Enumerate(s));
    FirstsEnumerate(s);
  }

  lemma EnumerateMember<T>(s: seq<T>, e: (T, nat))
    requires e in Enumerate(s)
    ensures e.1 < |s| && s[e.1] == e.0
  {
    var i :| 0 <= i < |s| && Enumerate(s)[i] == e;
  }

  /** `FilterIndexed` depends only on what the callback says at the list's own positions. */
  lemma FilterIndexedExt<T>(s: seq<T>, p: (T, nat) -> bool, q: (T, nat) -> bool)
    requires forall i :: 0 <= i < |s| ==> p(s[i], i) == q(s[i], i)
    ensures FilterIndexed(s, p) == FilterIndexed(s, q)
  {
    forall e | e in Enumerate(s) ensures p(e.0, e.1) == q(e.0, e.1) {
      EnumerateMember(s, e);
    }
    FilterExt(Enumerate(s), (e: (T, nat)) => p(e.0, e.1), (e: (T, nat)) => q(e.0, e.1));
  }

  /** A callback that accepts every position keeps the whole list. */
  lemma FilterIndexedKeepsAll<T>(s: seq<T>, p: (T, nat) -> bool)
    requires forall i :: 0 <= i < |s| ==> p(s[i], i)
    ensures FilterIndexed(s, p) == s
  {
    forall e | e in Enumerate(s) ensures p(e.0, e.1) {
      EnumerateMember(s, e);
    }
    FilterKeepsAll(Enumerate(s), (e: (T, nat)) => p(e.0, e.1));
    FirstsEnumerate(s);
  }

  /** A plain filter after an indexed one is one indexed filter by the conjunction. */
  lemma FilterAfterFilterIndexed<T>(s: seq<T>, p: (T, nat) -> bool, q: T -> bool, pq: (T, nat) -> bool)
    requires forall i :: 0 <= i < |s| ==> pq(s[i], i) == (p(s[i], i) && q(s[i]))
    ensures Filter(FilterIndexed(s, p), q) == FilterIndexed(s, pq)
  {
    var pe := (e: (T, nat)) => p(e.0, e.1);
    var qe := (e: (T, nat)) => q(e.0);
    var pqe := (e: (T, nat)) => pq(e.0, e.1);
    forall e | e in Enumerate(s) ensures pqe(e) == (pe(e) && qe(e)) {
      EnumerateMember(s, e);
    }
    assert forall e :: e in Filter(Enumerate(s), pe) ==> e in Enumerate(s);
    FilterFirsts(Filter(Enumerate(s), pe), q, qe);
    FilterCompose(Enumerate(s), pe, qe, pqe);
  }

  /** Two indexed filters that refine a third by a callback and its negation
      split the third's result into two parts whose order-preserving merge is it. */
  lemma FilterIndexedPartition<T>(s: seq<T>, all: (T, nat) -> bool, p: (T, nat) -> bool,
                                  allP: (T, nat) -> bool, allNotP: (T, nat) -> bool)
    requires forall i :: 0 <= i < |s| ==> allP(s[i], i) == (all(s[i], i) && p(s[i], i))
    requires forall i :: 0 <= i < |s| ==> allNotP(s[i], i) == (all(s[i], i) && !p(s[i], i))
    ensures IsInterleaving(FilterIndexed(s, all), FilterIndexed(s, allP), FilterIndexed(s, allNotP))
    ensures |FilterIndexed(s, allP)| + |FilterIndexed(s, allNotP)| == |FilterIndexed(s, all)|
  {
    var ae := (e: (T, nat)) => all(e.0, e.1);
    var pe := (e: (T, nat)) => p(e.0, e.1);
    var npe := (e: (T, nat)) => !p(e.0, e.1);
    forall e | e in Enumerate(s)
      ensures allP(e.0, e.1) == (ae(e) && pe(e)) && allNotP(e.0, e.1) == (ae(e) && npe(e))
    {
      EnumerateMember(s, e);
    }
    FilterCompose(Enumerate(s), ae, pe, (e: (T, nat)) => allP(e.0, e.1));
    FilterCompose(Enumerate(s), ae, npe, (e: (T, nat)) => allNotP(e.0, e.1));
    FilterPartition(Filter(Enumerate(s), ae), pe, npe);
    FirstsInterleaving(Filter(Enumerate(s), ae), Filter(Filter(Enumerate(s), ae), pe),
                       Filter(Filter(Enumerate(s), ae), npe));
  }

  /** No element occurs twice; for lists of objects, no object occurs twice. */
  predicate Distinct<T(==)>(s: seq<T>)
  {
    forall i, j :: 0 <= i < j < |s| ==> s[i] != s[j]
  }
}
