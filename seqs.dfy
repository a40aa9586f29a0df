/** Optional values and the order-preserving sequence operations that the
    document filters and the aggregation stages are built from. */
module Seqs {

  /** A field that may be absent from a document (`undefined` in the source). */
  datatype Option<+T> = None | Some(value: T) {
    function GetOr(default: T): T {
      match this
      case Some(v) => v
      case None => default
    }
  }

  /** The elements of s that satisfy p, in their original order. */
  function Filter<T>(p: T -> bool, s: seq<T>): (r: seq<T>)
    ensures |r| <= |s|
    ensures forall x :: x in r ==> x in s && p(x)
  {
    if s == [] then [] else (if p(s[0]) then [s[0]] else []) + Filter(p, s[1..])
  }

  /** f applied to every element of s, in order. */
  function MapSeq<A, B>(f: A -> B, s: seq<A>): (r: seq<B>)
    ensures |r| == |s|
    ensures forall i :: 0 <= i < |s| ==> r[i] == f(s[i])
  {
    if s == [] then [] else [f(s[0])] + MapSeq(f, s[1..])
  }

  /** The sum of f over the elements of s. */
  function SumBy<T>(f: T -> int, s: seq<T>): int {
    if s == [] then 0 else f(s[0]) + SumBy(f, s[1..])
  }

  /** No element occurs twice. */
  ghost predicate Distinct<T>(s: seq<T>) {
    forall i, j :: 0 <= i < j < |s| ==> s[i] != s[j]
  }

  /** idx lists, in increasing order, the positions of b at which the elements of a stand. */
  ghost predicate Embeds<T>(idx: seq<int>, a: seq<T>, b: seq<T>) {
    && |idx| == |a|
    && (forall i :: 0 <= i < |idx| ==> 0 <= idx[i] < |b| && a[i] == b[idx[i]])
    && (forall i, j :: 0 <= i < j < |idx| ==> idx[i] < idx[j])
  }

  /** a is obtained from b by deleting elements, without reordering. */
  ghost predicate IsSubsequence<T>(a: seq<T>, b: seq<T>) {
    exists idx :: Embeds(idx, a, b)
  }

  lemma {:induction false} FilterMembership<T>(p: T -> bool, s: seq<T>, x: T)
    ensures x in Filter(p, s) <==> x in s && p(x)
  {
    if s != [] {
      FilterMembership(p, s[1..], x);
      assert s == [s[0]] + s[1..];
    }
  }

  lemma {:induction false} FilterMultiplicity<T>(p: T -> bool, s: seq<T>, x: T)
    ensures multiset(Filter(p, s))[x] == if p(x) then multiset(s)[x] else 0
  {
    if s != [] {
      FilterMultiplicity(p, s[1..], x);
      assert s == [s[0]] + s[1..];
      assert multiset(s) == multiset([s[0]]) + multiset(s[1..]);
    }
  }

  lemma {:induction false} FilterAppend<T>(p: T -> bool, a: seq<T>, b: seq<T>)
    ensures Filter(p, a + b) == Filter(p, a) + Filter(p, b)
  {
    if a == [] {
      assert a + b == b;
    } else {
      assert (a + b)[0] == a[0];
      assert (a + b)[1..] == a[1..] + b;
      FilterAppend(p, a[1..], b);
    }
  }

  /** A filter that every element passes drops nothing. */
  lemma {:induction false} FilterKeepsAll<T>(p: T -> bool, s: seq<T>)
    requires forall x :: x in s ==> p(x)
    ensures Filter(p, s) == s
  {
    if s != [] {
      assert s[0] in s;
      assert forall x :: x in s[1..] ==> x in s;
      FilterKeepsAll(p, s[1..]);
    }
  }

  /** Every position of idx moved one place on. */
  function Shift(idx: seq<int>): (r: seq<int>)
    ensures |r| == |idx| && forall i :: 0 <= i < |idx| ==> r[i] == idx[i] + 1
  {
    if idx == [] then [] else [idx[0] + 1] + Shift(idx[1..])
  }

  /** An embedding into b is one into x + b once every position moves one place on. */
  lemma EmbedsShift<T>(idx: seq<int>, a: seq<T>, b: seq<T>, x: T)
    requires Embeds(idx, a, b)
    ensures Embeds(Shift(idx), a, [x] + b)
    ensures forall i :: 0 <= i < |idx| ==> Shift(idx)[i] >= 1
  {
    var r := Shift(idx);
    forall i | 0 <= i < |r| ensures 0 <= r[i] < |[x] + b| && a[i] == ([x] + b)[r[i]] {
      assert ([x] + b)[r[i]] == b[idx[i]];
    }
  }

  /** An embedding that avoids position 0 extends to x + a by matching x with position 0. */
  lemma EmbedsCons<T>(idx: seq<int>, a: seq<T>, b: seq<T>, x: T)
    requires Embeds(idx, a, [x] + b) && forall i :: 0 <= i < |idx| ==> idx[i] >= 1
    ensures Embeds([0] + idx, [x] + a, [x] + b)
  {
    var r := [0] + idx;
    forall i | 0 < i < |r| ensures r[i] == idx[i - 1] && ([x] + a)[i] == a[i - 1] {
    }
  }

  lemma {:induction false} FilterEmbedding<T>(p: T -> bool, s: seq<T>) returns (idx: seq<int>)
    ensures Embeds(idx, Filter(p, s), s)
  {
    if s == [] {
      idx := [];
    } else {
      var rest := FilterEmbedding(p, s[1..]);
      assert s == [s[0]] + s[1..];
      EmbedsShift(rest, Filter(p, s[1..]), s[1..], s[0]);
      if p(s[0]) {
        EmbedsCons(Shift(rest), Filter(p, s[1..]), s[1..], s[0]);
        idx := [0] + Shift(rest);
      } else {
        idx := Shift(rest);
      }
    }
  }

  /** A filter keeps the surviving elements in their original relative order. */
  lemma FilterIsSubsequence<T>(p: T -> bool, s: seq<T>)
    ensures IsSubsequence(Filter(p, s), s)
  {
    var idx := FilterEmbedding(p, s);
  }

  lemma {:induction false} DistinctMultiplicity<T>(s: seq<T>)
    ensures Distinct(s) <==> forall x :: multiset(s)[x] <= 1
  {
    if s != [] {
      DistinctMultiplicity(s[1..]);
      assert s == [s[0]] + s[1..];
      assert multiset(s) == multiset([s[0]]) + multiset(s[1..]);
      if Distinct(s) {
        assert Distinct(s[1..]) by {
          forall i, j | 0 <= i < j < |s[1..]| ensures s[1..][i] != s[1..][j] {
            assert s[1..][i] == s[i + 1] && s[1..][j] == s[j + 1];
          }
        }
        assert s[0] !in s[1..] by {
          forall j | 0 <= j < |s[1..]| ensures s[1..][j] != s[0] {
            assert s[1..][j] == s[j + 1];
          }
        }
      }
      if forall x :: multiset(s)[x] <= 1 {
        assert forall x :: multiset(s[1..])[x] <= multiset(s)[x];
        assert multiset(s[1..])[s[0]] == 0;
        forall i, j | 0 <= i < j < |s| ensures s[i] != s[j] {
          if i == 0 {
            assert s[j] == s[1..][j - 1];
            assert s[j] in s[1..];
          } else {
            assert s[i] == s[1..][i - 1] && s[j] == s[1..][j - 1];
          }
        }
      }
    }
  }

  /** Reordering a sequence without duplicates cannot create one. */
  lemma DistinctPermutation<T>(a: seq<T>, b: seq<T>)
    requires Distinct(a)
    requires multiset(a) == multiset(b)
    ensures Distinct(b)
  {
    DistinctMultiplicity(a);
    DistinctMultiplicity(b);
  }

  /** Dropping elements cannot create a duplicate. */
  lemma DistinctFilter<T>(p: T -> bool, s: seq<T>)
    requires Distinct(s)
    ensures Distinct(Filter(p, s))
  {
    DistinctMultiplicity(s);
    forall x ensures multiset(Filter(p, s))[x] <= 1 {
      FilterMultiplicity(p, s, x);
    }
    DistinctMultiplicity(Filter(p, s));
  }

  /** The values f takes on ks are exactly the elements of MapSeq(f, ks). */
  lemma MapSeqMembership<A, B>(f: A -> B, ks: seq<A>, y: B)
    ensures y in MapSeq(f, ks) <==> exists k :: k in ks && f(k) == y
  {
    var r := MapSeq(f, ks);
    if y in r {
      var i :| 0 <= i < |r| && r[i] == y;
      assert ks[i] in ks && f(ks[i]) == y;
    }
    if exists k :: k in ks && f(k) == y {
      var k :| k in ks && f(k) == y;
      var i :| 0 <= i < |ks| && ks[i] == k;
      assert r[i] == y;
    }
  }
}
