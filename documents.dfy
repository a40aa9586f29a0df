/** Stored documents as field-to-value maps, the query conditions the models' hooks add,
    and the two objects those hooks update in place: a pending find query and a pending
    aggregation pipeline. */
module Documents {
  import opened Seqs
  import Dates

  /** A field value as the store holds it; a missing field is absent from the document. */
  datatype Value =
    | Bool(b: bool)
    | Number(n: real)
    | Str(s: string)
    | Instant(ms: int)

  type Document = map<string, Value>

  /** The validator of a path that rejected the path's value. */
  datatype ErrorKind = Required | MinLength | MaxLength | Enum | Min | Max | UserDefined

  /** One entry of a validation error: the failing path and the validator that failed. */
  datatype FieldError = FieldError(path: string, kind: ErrorKind)

  /** No two entries report the same path. */
  predicate DistinctPaths(es: seq<FieldError>) {
    forall i, j :: 0 <= i < j < |es| ==> es[i].path != es[j].path
  }

  /** The errors of one path: at most one entry, reporting that path. */
  predicate OnPath(es: seq<FieldError>, path: string) {
    |es| <= 1 && forall e :: e in es ==> e.path == path
  }

  /** The error a failing `required` validator reports on a path. */
  function RequiredErrors(path: string, missing: bool): (es: seq<FieldError>)
    ensures OnPath(es, path)
    ensures es == [] <==> !missing
  {
    if missing then [FieldError(path, Required)] else []
  }

  /** Every entry reports one of the given paths. */
  predicate PathsIn(es: seq<FieldError>, paths: set<string>) {
    forall e :: e in es ==> e.path in paths
  }

  /** Putting one path's errors in front of errors on other paths keeps the paths distinct. */
  lemma DistinctPathsPrepend(a: seq<FieldError>, path: string, rest: seq<FieldError>, paths: set<string>)
    requires OnPath(a, path) && DistinctPaths(rest) && PathsIn(rest, paths) && path !in paths
    ensures DistinctPaths(a + rest) && PathsIn(a + rest, paths + {path})
  {
    if a != [] {
      forall j | 0 < j < |a + rest|
        ensures (a + rest)[0].path != (a + rest)[j].path
      {
        assert (a + rest)[j] == rest[j - 1];
      }
    }
  }

  /** The `required` validator of a String path passes a present, non-empty string;
      that of any other path passes any present value. */
  predicate RequiredString(v: Option<string>) {
    v.Some? && v.value != ""
  }

  function StrValue(v: Option<string>): Option<Value> {
    match v
    case Some(s) => Some(Str(s))
    case None => None
  }

  function NumValue(v: Option<real>): Option<Value> {
    match v
    case Some(n) => Some(Number(n))
    case None => None
  }

  function InstantValue(v: Option<int>): Option<Value> {
    match v
    case Some(ms) => Some(Instant(ms))
    case None => None
  }

  /** A condition on one field, in the store's query language. */
  datatype Condition =
    | Eq(field: string, value: Value)   // `{ field: value }`
    | Ne(field: string, value: Value)   // `{ field: { $ne: value } }`
    | Gte(field: string, bound: real)   // `{ field: { $gte: bound } }` on a number

  /** Equality needs the field; `$ne` also matches documents that lack it; `$gte` matches only numbers. */
  predicate Holds(c: Condition, d: Document)
    ensures Holds(c, d) && (c.Eq? || c.Gte?) ==> c.field in d
    ensures c.Ne? && c.field !in d ==> Holds(c, d)
    ensures Holds(c, d) && c.Gte? ==> d[c.field].Number? && d[c.field].n >= c.bound
  {
    match c
    case Eq(f, v) => f in d && d[f] == v
    case Ne(f, v) => f !in d || d[f] != v
    case Gte(f, b) => f in d && d[f].Number? && d[f].n >= b
  }

  /** All conditions hold: the conjunction a query's filter denotes. */
  predicate MatchesAll(cs: seq<Condition>, d: Document) {
    cs == [] || (Holds(cs[0], d) && MatchesAll(cs[1..], d))
  }

  lemma {:induction false} MatchesAllAppend(a: seq<Condition>, b: seq<Condition>, d: Document)
    ensures MatchesAll(a + b, d) == (MatchesAll(a, d) && MatchesAll(b, d))
  {
    if a == [] {
      assert a + b == b;
    } else {
      assert (a + b)[1..] == a[1..] + b;
      MatchesAllAppend(a[1..], b, d);
    }
  }

  /** The documents of coll that a filter selects, in collection order. */
  function Select<D>(cs: seq<Condition>, view: D -> Document, coll: seq<D>): (r: seq<D>)
    ensures forall x :: x in r ==> x in coll && MatchesAll(cs, view(x))
  {
    Filter((x: D) => MatchesAll(cs, view(x)), coll)
  }

  /** Adding conditions to a filter narrows its result by exactly those conditions. */
  lemma {:induction false} SelectAppend<D>(a: seq<Condition>, b: seq<Condition>, view: D -> Document, coll: seq<D>)
    ensures Select(a + b, view, coll) == Select(b, view, Select(a, view, coll))
  {
    if coll != [] {
      var x, rest := coll[0], coll[1..];
      SelectAppend(a, b, view, rest);
      MatchesAllAppend(a, b, view(x));
      var sa := Select(a, view, coll);
      assert Select(a + b, view, coll) == (if MatchesAll(a + b, view(x)) then [x] else []) + Select(a + b, view, rest);
      assert sa == (if MatchesAll(a, view(x)) then [x] else []) + Select(a, view, rest);
      if MatchesAll(a, view(x)) {
        assert sa[0] == x && sa[1..] == Select(a, view, rest);
        assert Select(b, view, sa) == (if MatchesAll(b, view(x)) then [x] else []) + Select(b, view, sa[1..]);
      } else {
        assert sa == Select(a, view, rest);
      }
    }
  }

  /** A filter selects what any predicate that agrees with it on the collection selects. */
  lemma {:induction false} SelectAsFilter<D>(cs: seq<Condition>, view: D -> Document, coll: seq<D>, p: D -> bool)
    requires forall x :: x in coll ==> MatchesAll(cs, view(x)) == p(x)
    ensures Select(cs, view, coll) == Filter(p, coll)
  {
    if coll != [] {
      assert coll[0] in coll;
      assert forall x :: x in coll[1..] ==> x in coll;
      SelectAsFilter(cs, view, coll[1..], p);
      assert Select(cs, view, coll) == (if p(coll[0]) then [coll[0]] else []) + Select(cs, view, coll[1..]);
    }
  }

  /** A filter without conditions selects the whole collection. */
  lemma {:induction false} SelectNothing<D>(view: D -> Document, coll: seq<D>)
    ensures Select([], view, coll) == coll
  {
    if coll != [] {
      SelectNothing(view, coll[1..]);
      assert Select([], view, coll) == [coll[0]] + Select([], view, coll[1..]);
    }
  }

  /** Merging the filter object `{ c.field: ... }` into a query's filter discards x: on the same
      field, a plain value replaces whatever was there and is replaced by an operator object,
      and an operator that both name takes the merged value (the schema layer merges with
      `overwrite`). An operator object keeps the other operators of the field. */
  predicate Displaces(c: Condition, x: Condition) {
    x.field == c.field && (c.Eq? || x.Eq? || (c.Ne? && x.Ne?) || (c.Gte? && x.Gte?))
  }

  function Survivors(c: Condition): Condition -> bool {
    x => !Displaces(c, x)
  }

  /** `query.find(filter)` on a query that already has conditions: the new condition is
      merged field by field into the existing filter. */
  function Merge(cs: seq<Condition>, c: Condition): (r: seq<Condition>)
    ensures c in r
    ensures forall x :: x in r ==> x == c || (x in cs && !Displaces(c, x))
    ensures forall x :: x in cs && !Displaces(c, x) ==> x in r
  {
    forall x | x in cs && !Displaces(c, x) ensures x in Filter(Survivors(c), cs) {
      FilterMembership(Survivors(c), cs, x);
    }
    Filter(Survivors(c), cs) + [c]
  }

  /** A filter that names nothing c displaces gains c as one more conjunct. */
  lemma MergeUntouched(cs: seq<Condition>, c: Condition)
    requires forall x :: x in cs ==> !Displaces(c, x)
    ensures Merge(cs, c) == cs + [c]
  {
    FilterKeepsAll(Survivors(c), cs);
  }

  /** What a merged filter selects: what the surviving conditions select, narrowed by c. */
  lemma SelectMerge<D>(cs: seq<Condition>, c: Condition, view: D -> Document, coll: seq<D>)
    ensures Select(Merge(cs, c), view, coll) == Select([c], view, Select(Filter(Survivors(c), cs), view, coll))
  {
    SelectAppend(Filter(Survivors(c), cs), [c], view, coll);
  }

  /** A pending find query: its filter conditions, and the `start` property a hook attaches. */
  class Query {
    var conditions: seq<Condition>
    var start: Option<int>

    constructor (conditions: seq<Condition>)
      ensures this.conditions == conditions && start == None
    {
      this.conditions := conditions;
      start := None;
    }
  }

  /** A pipeline stage: a `$match` on conditions, or any other stage, named by its operator. */
  datatype Stage =
    | Match(conditions: seq<Condition>)
    | Other(operator: string)

  /** The documents a `$match` stage passes on to the next stage. */
  function MatchStage<D>(st: Stage, view: D -> Document, coll: seq<D>): (r: seq<D>)
    requires st.Match?
    ensures forall x :: x in r ==> x in coll && MatchesAll(st.conditions, view(x))
  {
    Select(st.conditions, view, coll)
  }

  /** A pending aggregation over a collection. */
  class Aggregate {
    var pipeline: seq<Stage>

    constructor (pipeline: seq<Stage>)
      ensures this.pipeline == pipeline
    {
      this.pipeline := pipeline;
    }
  }
}
