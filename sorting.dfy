/** The `$sort` stage with a descending key (`-1`), as a stable insertion sort. */
module Sorting {
  import opened Seqs

  /** Sort keys in the store's comparison order: null sorts below every number. */
  datatype SortKey = Null | Number(n: real)

  /** a comes no later than b in descending order. */
  predicate KeyGe(a: SortKey, b: SortKey) {
    match b
    case Null => true
    case Number(y) => a.Number? && a.n >= y
  }

  /** s is non-increasing by key. */
  ghost predicate SortedDesc<T>(key: T -> SortKey, s: seq<T>) {
    forall i, j :: 0 <= i < j < |s| ==> KeyGe(key(s[i]), key(s[j]))
  }

  /** x placed before the first element whose key is not above its own. */
  function Insert<T>(key: T -> SortKey, x: T, s: seq<T>): seq<T> {
    if s == [] then [x]
    else if KeyGe(key(x), key(s[0])) then [x] + s
    else [s[0]] + Insert(key, x, s[1..])
  }

  lemma {:induction false} InsertMultiset<T>(key: T -> SortKey, x: T, s: seq<T>)
    ensures multiset(Insert(key, x, s)) == multiset(s) + multiset{x}
  {
    if s != [] {
      assert s == [s[0]] + s[1..];
      if !KeyGe(key(x), key(s[0])) {
        InsertMultiset(key, x, s[1..]);
      }
    }
  }

  lemma {:induction false} InsertSorted<T>(key: T -> SortKey, x: T, s: seq<T>)
    requires SortedDesc(key, s)
    ensures SortedDesc(key, Insert(key, x, s))
  {
    if s == [] {
    } else if KeyGe(key(x), key(s[0])) {
      var r := [x] + s;
      forall i, j | 0 <= i < j < |r| ensures KeyGe(key(r[i]), key(r[j])) {
        if i == 0 {
          assert r[j] == s[j - 1];
          if j > 1 {
            assert KeyGe(key(s[0]), key(s[j - 1]));
          }
        } else {
          assert r[i] == s[i - 1] && r[j] == s[j - 1];
        }
      }
    } else {
      var tail := s[1..];
      assert SortedDesc(key, tail) by {
        forall i, j | 0 <= i < j < |tail| ensures KeyGe(key(tail[i]), key(tail[j])) {
          assert tail[i] == s[i + 1] && tail[j] == s[j + 1];
        }
      }
      var rest := Insert(key, x, tail);
      InsertSorted(key, x, tail);
      InsertMultiset(key, x, tail);
      forall y | y in rest ensures KeyGe(key(s[0]), key(y)) {
        assert y in multiset(rest);
        if y != x {
          assert y in multiset(tail);
          var j :| 0 <= j < |tail| && tail[j] == y;
          assert s[j + 1] == y;
        }
      }
      var r := [s[0]] + rest;
      forall i, j | 0 <= i < j < |r| ensures KeyGe(key(r[i]), key(r[j])) {
        if i == 0 {
          assert r[j] == rest[j - 1];
          assert r[j] in rest;
        } else {
          assert r[i] == rest[i - 1] && r[j] == rest[j - 1];
        }
      }
    }
  }

  /** s sorted by key, largest first; elements with equal keys keep their input order. */
  function SortDesc<T>(key: T -> SortKey, s: seq<T>): (r: seq<T>)
    ensures SortedDesc(key, r)
    ensures multiset(r) == multiset(s)
  {
    if s == [] then []
    else
      assert s == [s[0]] + s[1..];
      var sorted := SortDesc(key, s[1..]);
      InsertSorted(key, s[0], sorted);
      InsertMultiset(key, s[0], sorted);
      Insert(key, s[0], sorted)
  }

  lemma {:induction false} InsertSum<T>(key: T -> SortKey, f: T -> int, x: T, s: seq<T>)
    ensures SumBy(f, Insert(key, x, s)) == f(x) + SumBy(f, s)
  {
    if s != [] && !KeyGe(key(x), key(s[0])) {
      InsertSum(key, f, x, s[1..]);
      var r := Insert(key, x, s);
      assert r[1..] == Insert(key, x, s[1..]);
    }
  }

  /** Sorting does not change the sum of a per-element quantity. */
  lemma {:induction false} SortDescSum<T>(key: T -> SortKey, f: T -> int, s: seq<T>)
    ensures SumBy(f, SortDesc(key, s)) == SumBy(f, s)
  {
    if s != [] {
      SortDescSum(key, f, s[1..]);
      InsertSum(key, f, s[0], SortDesc(key, s[1..]));
    }
  }

  /** Sorting keeps exactly the same elements, each as often. */
  lemma SortDescMembers<T>(key: T -> SortKey, s: seq<T>, x: T)
    ensures x in SortDesc(key, s) <==> x in s
  {
    assert x in multiset(SortDesc(key, s)) <==> x in multiset(s);
  }

  /** Dropping elements from a sorted sequence leaves it sorted. */
  lemma FilterKeepsSorted<T>(key: T -> SortKey, p: T -> bool, s: seq<T>)
    requires SortedDesc(key, s)
    ensures SortedDesc(key, Filter(p, s))
  {
    var r := Filter(p, s);
    var idx := FilterEmbedding(p, s);
    forall i, j | 0 <= i < j < |r| ensures KeyGe(key(r[i]), key(r[j])) {
      assert r[i] == s[idx[i]] && r[j] == s[idx[j]] && idx[i] < idx[j];
    }
  }
}
