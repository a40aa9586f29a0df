/** The `$group` accumulators `$sum`, `$avg`, `$min`, `$max` and `$push` over a field.
    Each accumulator ignores documents in which the field is missing. */
module Accumulators {
  import opened Seqs

  /** The values of field f over s, skipping the documents where it is missing (`$push`). */
  function Present<T, V>(f: T -> Option<V>, s: seq<T>): (r: seq<V>)
    ensures |r| <= |s|
    ensures forall v :: v in r ==> exists x :: x in s && f(x) == Some(v)
  {
    if s == [] then []
    else
      var rest := Present(f, s[1..]);
      assert forall x :: x in s[1..] ==> x in s;
      (match f(s[0]) case Some(v) => [v] case None => []) + rest
  }

  lemma {:induction false} PresentContains<T, V>(f: T -> Option<V>, s: seq<T>, x: T)
    requires x in s && f(x).Some?
    ensures f(x).value in Present(f, s)
  {
    if s[0] != x {
      PresentContains(f, s[1..], x);
    }
  }

  /** Every value a document holds is collected. */
  lemma PresentMembers<T, V>(f: T -> Option<V>, s: seq<T>)
    ensures forall x :: x in s && f(x).Some? ==> f(x).value in Present(f, s)
  {
    forall x | x in s && f(x).Some? ensures f(x).value in Present(f, s) {
      PresentContains(f, s, x);
    }
  }

  /** When no document misses the field, every document contributes one value. */
  lemma {:induction false} PresentAll<T, V>(f: T -> Option<V>, s: seq<T>)
    requires forall x :: x in s ==> f(x).Some?
    ensures |Present(f, s)| == |s|
  {
    if s != [] {
      assert s[0] in s;
      assert forall x :: x in s[1..] ==> x in s;
      PresentAll(f, s[1..]);
    }
  }

  /** `$sum`: the total of the values (0 for none). */
  function Sum(xs: seq<real>): real {
    if xs == [] then 0.0 else xs[0] + Sum(xs[1..])
  }

  /** `$sum` adds up group by group: the total of two runs of documents is the sum of
      their totals, whatever the split. */
  lemma {:induction false} SumAppend(a: seq<real>, b: seq<real>)
    ensures Sum(a + b) == Sum(a) + Sum(b)
  {
    if a == [] {
      assert a + b == b;
    } else {
      assert (a + b)[1..] == a[1..] + b;
      SumAppend(a[1..], b);
    }
  }

  /** `$min`: the least value, or null when there is none. */
  function Min(xs: seq<real>): (r: Option<real>)
    ensures r.Some? <==> xs != []
    ensures r.Some? ==> r.value in xs && forall x :: x in xs ==> r.value <= x
  {
    if xs == [] then None
    else
      var rest := Min(xs[1..]);
      assert forall x :: x in xs ==> x == xs[0] || x in xs[1..];
      if rest.Some? && rest.value < xs[0] then rest else Some(xs[0])
  }

  /** `$max`: the greatest value, or null when there is none. */
  function Max(xs: seq<real>): (r: Option<real>)
    ensures r.Some? <==> xs != []
    ensures r.Some? ==> r.value in xs && forall x :: x in xs ==> x <= r.value
  {
    if xs == [] then None
    else
      var rest := Max(xs[1..]);
      assert forall x :: x in xs ==> x == xs[0] || x in xs[1..];
      if rest.Some? && rest.value > xs[0] then rest else Some(xs[0])
  }

  /** `$avg`: the arithmetic mean, or null when there are no values. */
  function Average(xs: seq<real>): (r: Option<real>)
    ensures r.Some? <==> xs != []
    ensures r.Some? ==> r.value * (|xs| as real) == Sum(xs)
  {
    if xs == [] then None else Some(Sum(xs) / (|xs| as real))
  }

  lemma {:induction false} SumBounds(xs: seq<real>, lo: real, hi: real)
    requires forall x :: x in xs ==> lo <= x <= hi
    ensures (|xs| as real) * lo <= Sum(xs) <= (|xs| as real) * hi
  {
    if xs != [] {
      assert xs[0] in xs;
      assert forall x :: x in xs[1..] ==> x in xs;
      SumBounds(xs[1..], lo, hi);
    }
  }

  lemma QuotientBounds(total: real, n: real, lo: real, hi: real)
    requires n > 0.0
    requires n * lo <= total <= n * hi
    ensures lo <= total / n <= hi
  {
    var q := total / n;
    assert q * n == total;
    assert (q - lo) * n == total - n * lo;
    assert (hi - q) * n == n * hi - total;
  }

  /** The mean lies between the least and the greatest value. */
  lemma AverageBetweenMinAndMax(xs: seq<real>)
    requires xs != []
    ensures Min(xs).value <= Average(xs).value <= Max(xs).value
  {
    var lo, hi := Min(xs).value, Max(xs).value;
    SumBounds(xs, lo, hi);
    QuotientBounds(Sum(xs), |xs| as real, lo, hi);
  }
}
