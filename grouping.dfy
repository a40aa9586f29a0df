/** The `$group` stage: distinct group keys and the members of each group. */
module Grouping {
  import opened Seqs

  /** The distinct values of key over s, in order of first appearance: one per emitted group. */
  function Keys<T, K(==)>(key: T -> K, s: seq<T>): (ks: seq<K>)
    ensures Distinct(ks)
    ensures forall x :: x in s ==> key(x) in ks
    ensures forall k :: k in ks ==> exists x :: x in s && key(x) == k
    decreases |s|
  {
    if s == [] then []
    else
      var init := s[..|s| - 1];
      assert s == init + [s[|s| - 1]];
      var ks := Keys(key, init);
      var k := key(s[|s| - 1]);
      if k in ks then ks else ks + [k]
  }

  /** The elements of s that fall into the group with key k, in their original order. */
  function Members<T, K(==)>(key: T -> K, s: seq<T>, k: K): (ms: seq<T>)
    ensures forall x :: x in ms ==> x in s && key(x) == k
    ensures forall x :: x in s && key(x) == k ==> x in ms
  {
    var p := (x: T) => key(x) == k;
    assert forall x :: x in s && key(x) == k ==> x in Filter(p, s) by {
      forall x | x in s && key(x) == k ensures x in Filter(p, s) {
        FilterMembership(p, s, x);
      }
    }
    Filter(p, s)
  }

  /** The total size of the groups named in ks. */
  function GroupSizes<T, K(==)>(key: T -> K, s: seq<T>, ks: seq<K>): int {
    if ks == [] then 0 else |Members(key, s, ks[0])| + GroupSizes(key, s, ks[1..])
  }

  lemma {:induction false} MembersSnoc<T, K>(key: T -> K, s: seq<T>, x: T, k: K)
    ensures |Members(key, s + [x], k)| == |Members(key, s, k)| + (if key(x) == k then 1 else 0)
  {
    FilterAppend((y: T) => key(y) == k, s, [x]);
  }

  lemma {:induction false} GroupSizesEmpty<T, K>(key: T -> K, ks: seq<K>)
    ensures GroupSizes(key, [], ks) == 0
  {
    if ks != [] {
      GroupSizesEmpty(key, ks[1..]);
    }
  }

  lemma {:induction false} GroupSizesSnoc<T, K>(key: T -> K, s: seq<T>, x: T, ks: seq<K>)
    ensures GroupSizes(key, s + [x], ks) == GroupSizes(key, s, ks) + multiset(ks)[key(x)]
  {
    if ks != [] {
      GroupSizesSnoc(key, s, x, ks[1..]);
      MembersSnoc(key, s, x, ks[0]);
      assert ks == [ks[0]] + ks[1..];
      assert multiset(ks) == multiset([ks[0]]) + multiset(ks[1..]);
    }
  }

  /** Groups over distinct keys that cover every element partition s: their sizes add up to |s|. */
  lemma {:induction false} GroupSizesCover<T, K>(key: T -> K, s: seq<T>, ks: seq<K>)
    requires Distinct(ks)
    requires forall x :: x in s ==> key(x) in ks
    ensures GroupSizes(key, s, ks) == |s|
    decreases |s|
  {
    if s == [] {
      GroupSizesEmpty(key, ks);
    } else {
      var init, last := s[..|s| - 1], s[|s| - 1];
      assert s == init + [last];
      assert forall x :: x in init ==> x in s;
      GroupSizesCover(key, init, ks);
      GroupSizesSnoc(key, init, last, ks);
      DistinctMultiplicity(ks);
      assert key(last) in ks;
    }
  }

  /** Summing a per-group quantity that equals the group's size gives GroupSizes. */
  lemma {:induction false} SumOfGroupSizes<T, K, G>(key: T -> K, s: seq<T>, ks: seq<K>, f: K -> G, size: G -> int)
    requires forall k :: k in ks ==> size(f(k)) == |Members(key, s, k)|
    ensures SumBy(size, MapSeq(f, ks)) == GroupSizes(key, s, ks)
  {
    if ks != [] {
      assert ks[0] in ks;
      assert forall k :: k in ks[1..] ==> k in ks;
      SumOfGroupSizes(key, s, ks[1..], f, size);
      assert MapSeq(f, ks)[1..] == MapSeq(f, ks[1..]);
    }
  }

  /** Summing the group sizes over the keys of s gives |s|. */
  lemma GroupsPartition<T, K, G>(key: T -> K, s: seq<T>, f: K -> G, size: G -> int)
    requires forall k :: k in Keys(key, s) ==> size(f(k)) == |Members(key, s, k)|
    ensures SumBy(size, MapSeq(f, Keys(key, s))) == |s|
  {
    SumOfGroupSizes(key, s, Keys(key, s), f, size);
    GroupSizesCover(key, s, Keys(key, s));
  }

  /** Mapping distinct keys through a function that keeps the key recoverable gives distinct groups. */
  lemma DistinctGroups<K, G>(ks: seq<K>, f: K -> G, id: G -> K)
    requires Distinct(ks)
    requires forall k :: k in ks ==> id(f(k)) == k
    ensures Distinct(MapSeq(f, ks))
  {
    var gs := MapSeq(f, ks);
    forall i, j | 0 <= i < j < |gs| ensures gs[i] != gs[j] {
      assert ks[i] in ks && ks[j] in ks;
      assert id(gs[i]) == ks[i] && id(gs[j]) == ks[j];
    }
  }
}
