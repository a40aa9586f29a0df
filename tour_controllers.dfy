/** The tour route handlers that carry logic of their own: the body check, the top-tours
    alias, and the two aggregation reports, statistics per difficulty and start dates per
    month of a year. Both reports run on the visible tours: the aggregate hook puts the
    secret-tour exclusion in front of every pipeline. */
module TourControllers {
  import opened Seqs
  import opened Dates
  import Documents
  import opened Grouping
  import opened Accumulators
  import Sorting
  import TourModel

  type Tour = TourModel.Tour

  // ---------------------------------------------------------------- checkBody

  /** A request-body value as JavaScript sees it; a key the body lacks reads as Undefined. */
  datatype JsValue = Undefined | Null | Bool(b: bool) | Num(n: real) | NaN | Str(s: string) | Object

  /** JavaScript truthiness: every value is truthy except the six falsy ones. */
  predicate Truthy(v: JsValue)
    ensures Truthy(v) <==> v !in Falsy
  {
    match v
    case Undefined => false
    case Null => false
    case Bool(b) => b
    case Num(n) => n != 0.0
    case NaN => false
    case Str(s) => s != ""
    case Object => true
  }

  /** The six falsy values of JavaScript (zero and negative zero are one number here). */
  const Falsy: set<JsValue> := {Undefined, Null, Bool(false), Num(0.0), NaN, Str("")}

  function Field(body: map<string, JsValue>, key: string): JsValue {
    if key in body then body[key] else Undefined
  }

  /** What a middleware does with a request: pass it on, or answer it. */
  datatype Outcome = Next | Respond(code: int, status: string, message: string)

  const MissingNameOrPrice: Outcome := Respond(404, "fail", "Missing name or price")

  /** `checkBody`: a request whose body lacks a truthy name or a truthy price is answered
      with 404 and never reaches the next handler. */
  function CheckBody(body: map<string, JsValue>): (o: Outcome)
    ensures o == Next || o == MissingNameOrPrice
  {
    if !Truthy(Field(body, "name")) || !Truthy(Field(body, "price")) then MissingNameOrPrice else Next
  }

  /** The request passes exactly when both keys are present and neither holds a falsy value. */
  lemma CheckBodyPasses(body: map<string, JsValue>)
    ensures CheckBody(body) == Next <==>
      "name" in body && "price" in body && body["name"] !in Falsy && body["price"] !in Falsy
  {
  }

  /** Truthiness is not "present": a price of 0 or an empty name is refused, while the
      string "0" passes as a price. */
  lemma CheckBodyEdgeCases(name: string)
    ensures CheckBody(map["name" := Str(name), "price" := Num(0.0)]) == MissingNameOrPrice
    ensures CheckBody(map["name" := Str(""), "price" := Num(397.0)]) == MissingNameOrPrice
    ensures CheckBody(map["price" := Num(397.0)]) == MissingNameOrPrice
    ensures name != "" ==> CheckBody(map["name" := Str(name), "price" := Str("0")]) == Next
  {
  }

  // ---------------------------------------------------------------- aliasTopTours

  /** An incoming request; only its parsed query string is modelled. */
  class Request {
    var query: map<string, string>

    constructor (query: map<string, string>)
      ensures this.query == query
    {
      this.query := query;
    }
  }

  const TopToursLimit := "5"
  const TopToursSort := "-ratingsAverage price"
  const TopToursFields := "name,price ratingsAverage summary difficulty"

  /** The query string the alias hands on: its three keys are overwritten, the rest kept. */
  function TopToursQuery(q: map<string, string>): (r: map<string, string>)
    ensures r.Keys == q.Keys + {"limit", "sort", "fields"}
    ensures r["limit"] == TopToursLimit && r["sort"] == TopToursSort && r["fields"] == TopToursFields
    ensures forall k :: k in q && k != "limit" && k != "sort" && k != "fields" ==> r[k] == q[k]
  {
    q["limit" := TopToursLimit]["sort" := TopToursSort]["fields" := TopToursFields]
  }

  /** Aliasing twice is aliasing once, and what the client asked for in those keys is lost. */
  lemma TopToursQueryIdempotent(q: map<string, string>, other: map<string, string>)
    ensures TopToursQuery(TopToursQuery(q)) == TopToursQuery(q)
    ensures (forall k :: k in q && k != "limit" && k != "sort" && k != "fields" <==>
                         k in other && k != "limit" && k != "sort" && k != "fields")
            && (forall k :: k in q && k != "limit" && k != "sort" && k != "fields" ==> q[k] == other[k])
            ==> TopToursQuery(q) == TopToursQuery(other)
  {
  }

  /** `aliasTopTours`: the request's query is rewritten before the list handler reads it. */
  method AliasTopTours(req: Request)
    modifies req
    ensures req.query == TopToursQuery(old(req.query))
  {
    req.query := req.query["limit" := TopToursLimit];
    req.query := req.query["sort" := TopToursSort];
    req.query := req.query["fields" := TopToursFields];
  }

  // ---------------------------------------------------------------- getTourStats

  const RatingFloor: real := 4.5

  /** The first stage of the statistics pipeline: `{ ratingsAverage: { $gte: 4.5 } }`. */
  const HighlyRatedCondition: Documents.Condition := Documents.Gte("ratingsAverage", RatingFloor)

  predicate HighlyRated(t: Tour) {
    t.ratingsAverage.Some? && t.ratingsAverage.value >= RatingFloor
  }

  lemma HighlyRatedMeaning(t: Tour)
    ensures Documents.MatchesAll([HighlyRatedCondition], TourModel.ToDocument(t)) <==> HighlyRated(t)
  {
  }

  /** The tours that pass the rating stage. */
  function Matched(visible: seq<Tour>): seq<Tour> {
    Documents.Select([HighlyRatedCondition], TourModel.ToDocument, visible)
  }

  /** The rating stage keeps exactly the tours rated 4.5 or better; an unrated tour is dropped. */
  lemma MatchedExactly(visible: seq<Tour>)
    ensures Matched(visible) == Filter(HighlyRated, visible)
  {
    forall t | t in visible ensures Documents.MatchesAll([HighlyRatedCondition], TourModel.ToDocument(t)) == HighlyRated(t) {
      HighlyRatedMeaning(t);
    }
    Documents.SelectAsFilter([HighlyRatedCondition], TourModel.ToDocument, visible, HighlyRated);
  }

  /** One output document of the statistics report. The source names the greatest PRICE
      `maxRating`; the field keeps that name here and holds that value. */
  datatype DifficultyStats = DifficultyStats(
    id: Option<string>,
    numTours: nat,
    numRatings: real,
    avgRating: Option<real>,
    avgPrice: Option<real>,
    minPrice: Option<real>,
    maxRating: Option<real>)

  function DifficultyOf(t: Tour): Option<string> { t.difficulty }
  function RatingsQuantityOf(t: Tour): Option<real> { t.ratingsQuantity }
  function RatingsAverageOf(t: Tour): Option<real> { t.ratingsAverage }
  function PriceOf(t: Tour): Option<real> { t.price }

  /** The `$group` stage's document for the tours of difficulty id (null for a missing
      difficulty): a count, and the accumulators over the fields that are present. */
  function StatsGroup(matched: seq<Tour>, id: Option<string>): (g: DifficultyStats)
    ensures g.id == id && g.numTours == |Members(DifficultyOf, matched, id)|
    ensures g.avgPrice.Some? <==> exists t :: t in Members(DifficultyOf, matched, id) && t.price.Some?
    ensures g.minPrice.Some? == g.avgPrice.Some? && g.maxRating.Some? == g.avgPrice.Some?
    ensures g.avgPrice.Some? ==> g.minPrice.value <= g.avgPrice.value <= g.maxRating.value
    ensures forall t :: t in Members(DifficultyOf, matched, id) && t.price.Some? ==>
              g.minPrice.value <= t.price.value <= g.maxRating.value
  {
    var members := Members(DifficultyOf, matched, id);
    var prices := Present(PriceOf, members);
    PresentMembers(PriceOf, members);
    PriceAverageBounds(prices);
    DifficultyStats(
      id,
      |members|,
      Sum(Present(RatingsQuantityOf, members)),
      Average(Present(RatingsAverageOf, members)),
      Average(prices),
      Min(prices),
      Max(prices))
  }

  lemma PriceAverageBounds(prices: seq<real>)
    ensures prices != [] ==> Min(prices).value <= Average(prices).value <= Max(prices).value
  {
    if prices != [] {
      AverageBetweenMinAndMax(prices);
    }
  }

  function GroupOf(matched: seq<Tour>): Option<string> -> DifficultyStats {
    id => StatsGroup(matched, id)
  }

  /** The output of the `$group` stage, one document per difficulty that occurs. */
  function StatsGroups(matched: seq<Tour>): seq<DifficultyStats> {
    MapSeq(GroupOf(matched), Keys(DifficultyOf, matched))
  }

  /** `$sort: { avgPrice: -1 }`: a group without any price sorts last. */
  function AvgPriceKey(g: DifficultyStats): Sorting.SortKey {
    if g.avgPrice.Some? then Sorting.Number(g.avgPrice.value) else Sorting.Null
  }

  /** The last stage, `{ _id: { $ne: 'EASY' } }`. */
  predicate NotEasy(g: DifficultyStats) {
    g.id != Some("EASY")
  }

  /** The pipeline after the hook's stage: rating match, group, sort, difficulty match. */
  function TourStats(visible: seq<Tour>): (r: seq<DifficultyStats>)
    ensures Sorting.SortedDesc(AvgPriceKey, r)
    ensures forall g :: g in r ==> g.id != Some("EASY")
  {
    var sorted := Sorting.SortDesc(AvgPriceKey, StatsGroups(Matched(visible)));
    Sorting.FilterKeepsSorted(AvgPriceKey, NotEasy, sorted);
    Filter(NotEasy, sorted)
  }

  /** `getTourStats` on the whole collection: the hook's stage leaves the visible tours. */
  function GetTourStats(coll: seq<Tour>): (r: seq<DifficultyStats>)
    ensures r == TourStats(Filter(TourModel.IsVisible, coll))
  {
    TourModel.AggregateStageZero([], coll);
    TourStats(TourModel.VisibleTours(coll))
  }

  /** Adding a secret tour to the collection changes no line of the report. */
  lemma GetTourStatsIgnoresSecret(coll: seq<Tour>, t: Tour)
    requires t.secretTour == Some(true)
    ensures GetTourStats(coll + [t]) == GetTourStats(coll)
  {
    FilterAppend(TourModel.IsVisible, coll, [t]);
    assert Filter(TourModel.IsVisible, [t]) == [];
    assert Filter(TourModel.IsVisible, coll) + [] == Filter(TourModel.IsVisible, coll);
  }

  /** A report line belongs to the report exactly when some matched tour has its
      difficulty, that difficulty is not `EASY`, and the line is that difficulty's group. */
  lemma TourStatsMembership(visible: seq<Tour>, g: DifficultyStats)
    ensures g in TourStats(visible) <==>
      && (exists t :: t in Matched(visible) && t.difficulty == g.id)
      && g.id != Some("EASY")
      && g == StatsGroup(Matched(visible), g.id)
  {
    var matched := Matched(visible);
    var groups := StatsGroups(matched);
    var sorted := Sorting.SortDesc(AvgPriceKey, groups);
    FilterMembership(NotEasy, sorted, g);
    Sorting.SortDescMembers(AvgPriceKey, groups, g);
    MapSeqMembership(GroupOf(matched), Keys(DifficultyOf, matched), g);
  }

  /** Every matched tour whose difficulty is not `EASY` is counted in a line of the report. */
  lemma TourStatsCovers(visible: seq<Tour>, t: Tour)
    requires t in Matched(visible) && t.difficulty != Some("EASY")
    ensures StatsGroup(Matched(visible), t.difficulty) in TourStats(visible)
    ensures t in Members(DifficultyOf, Matched(visible), t.difficulty)
  {
    TourStatsMembership(visible, StatsGroup(Matched(visible), t.difficulty));
  }

  /** A line of a difficulty that occurs among the matched tours counts at least one tour,
      and its average rating is present and at least 4.5, since every matched tour has a
      rating of at least 4.5. */
  lemma StatsGroupFacts(visible: seq<Tour>, id: Option<string>)
    requires exists t :: t in Matched(visible) && t.difficulty == id
    ensures var g := StatsGroup(Matched(visible), id);
      && g.numTours >= 1
      && g.avgRating.Some? && g.avgRating.value >= RatingFloor
  {
    var matched := Matched(visible);
    MatchedExactly(visible);
    var members := Members(DifficultyOf, matched, id);
    var t0 :| t0 in matched && t0.difficulty == id;
    assert t0 in members;
    var ratings := Present(RatingsAverageOf, members);
    PresentAll(RatingsAverageOf, members);
    assert ratings != [];
    forall v | v in ratings ensures v >= RatingFloor {
      var x :| x in members && RatingsAverageOf(x) == Some(v);
      assert HighlyRated(x);
    }
    AverageBetweenMinAndMax(ratings);
  }

  /** No difficulty has two lines. */
  lemma TourStatsDistinct(visible: seq<Tour>)
    ensures forall i, j :: 0 <= i < j < |TourStats(visible)| ==> TourStats(visible)[i].id != TourStats(visible)[j].id
  {
    var matched := Matched(visible);
    var groups := StatsGroups(matched);
    var sorted := Sorting.SortDesc(AvgPriceKey, groups);
    var r := TourStats(visible);
    DistinctGroups(Keys(DifficultyOf, matched), GroupOf(matched), (g: DifficultyStats) => g.id);
    DistinctPermutation(groups, sorted);
    DistinctFilter(NotEasy, sorted);
    forall i, j | 0 <= i < j < |r| ensures r[i].id != r[j].id {
      assert r[i] in r && r[j] in r;
      TourStatsMembership(visible, r[i]);
      TourStatsMembership(visible, r[j]);
    }
  }

  function NumToursOf(g: DifficultyStats): int { g.numTours }

  /** When no matched tour has difficulty `EASY`, the last stage drops nothing and the lines
      count every matched tour exactly once. */
  lemma TourStatsTotal(visible: seq<Tour>)
    requires forall t :: t in Matched(visible) ==> t.difficulty != Some("EASY")
    ensures TourStats(visible) == Sorting.SortDesc(AvgPriceKey, StatsGroups(Matched(visible)))
    ensures SumBy(NumToursOf, TourStats(visible)) == |Matched(visible)|
  {
    var matched := Matched(visible);
    var groups := StatsGroups(matched);
    var sorted := Sorting.SortDesc(AvgPriceKey, groups);
    forall g | g in sorted ensures NotEasy(g) {
      Sorting.SortDescMembers(AvgPriceKey, groups, g);
      MapSeqMembership(GroupOf(matched), Keys(DifficultyOf, matched), g);
    }
    FilterKeepsAll(NotEasy, sorted);
    Sorting.SortDescSum(AvgPriceKey, NumToursOf, groups);
    GroupsPartition(DifficultyOf, matched, GroupOf(matched), NumToursOf);
  }

  /** Over a collection of valid tours the `EASY` stage never removes a line (the stored
      difficulties are lower case), and the lines count every visible tour rated 4.5 or better. */
  lemma GetTourStatsOfValidTours(coll: seq<Tour>)
    requires forall t :: t in coll ==> TourModel.ValidTour(t)
    ensures GetTourStats(coll) == Sorting.SortDesc(AvgPriceKey, StatsGroups(Matched(TourModel.VisibleTours(coll))))
    ensures SumBy(NumToursOf, GetTourStats(coll)) == |Filter(HighlyRated, Filter(TourModel.IsVisible, coll))|
  {
    var visible := TourModel.VisibleTours(coll);
    forall t | t in Matched(visible) ensures t.difficulty != Some("EASY") {
      TourModel.VisibleToursExactly(coll, t);
      assert TourModel.ValidTour(t);
    }
    TourStatsTotal(visible);
    MatchedExactly(visible);
    var any: Tour :| true;
    TourModel.VisibleToursExactly(coll, any);
  }

  // ---------------------------------------------------------------- getMonthlyPlan

  /** A document after `$unwind: '$startDates'`: the tour's name with one of its start dates. */
  datatype PlanRow = PlanRow(name: Option<string>, date: UtcDate)

  function UnwindDates(name: Option<string>, ds: seq<UtcDate>): (rows: seq<PlanRow>)
    ensures |rows| == |ds|
    ensures forall i :: 0 <= i < |ds| ==> rows[i] == PlanRow(name, ds[i])
  {
    if ds == [] then [] else [PlanRow(name, ds[0])] + UnwindDates(name, ds[1..])
  }

  function StartDateCount(t: Tour): int { |t.startDates| }

  /** `$unwind`: one row per start date of each tour; a tour without start dates yields none. */
  function Unwind(tours: seq<Tour>): (rows: seq<PlanRow>)
    ensures |rows| == SumBy(StartDateCount, tours)
    ensures forall r :: r in rows ==> exists t :: t in tours && r.name == t.name && r.date in t.startDates
  {
    if tours == [] then []
    else
      var t := tours[0];
      var mine := UnwindDates(t.name, t.startDates);
      var rest := Unwind(tours[1..]);
      assert forall x :: x in tours[1..] ==> x in tours;
      forall r | r in mine ensures r.name == t.name && r.date in t.startDates {
        var i :| 0 <= i < |mine| && mine[i] == r;
      }
      mine + rest
  }

  /** Every start date of every tour gives a row. */
  lemma {:induction false} UnwindComplete(tours: seq<Tour>, t: Tour, d: UtcDate)
    requires t in tours && d in t.startDates
    ensures PlanRow(t.name, d) in Unwind(tours)
  {
    if tours[0] == t {
      var i :| 0 <= i < |t.startDates| && t.startDates[i] == d;
      assert UnwindDates(t.name, t.startDates)[i] == PlanRow(t.name, d);
    } else {
      UnwindComplete(tours[1..], t, d);
    }
  }

  /** The bounds of the date match: `new Date('<year>-01-01')` and `new Date('<year>-12-31')`,
      both midnight UTC. */
  function WindowStart(year: int): UtcDate { Midnight(year, 1, 1) }
  function WindowEnd(year: int): UtcDate { Midnight(year, 12, 31) }

  /** `{ $gte: start, $lte: end }` on the start date. */
  predicate InWindow(year: int, d: UtcDate) {
    AtOrBefore(WindowStart(year), d) && AtOrBefore(d, WindowEnd(year))
  }

  /** The window is the year minus the last day after its first instant: a start at noon on
      31 December is not counted in that year, nor in any other. */
  lemma InWindowMeaning(year: int, d: UtcDate)
    ensures InWindow(year, d) <==> d.year == year && !(d.month == 12 && d.day == 31 && d.millis > 0)
  {
  }

  function InWindowOf(year: int): PlanRow -> bool {
    (r: PlanRow) => InWindow(year, r.date)
  }

  /** The rows that pass the date match. */
  function PlanRows(visible: seq<Tour>, year: int): seq<PlanRow> {
    Filter(InWindowOf(year), Unwind(visible))
  }

  lemma PlanRowsExactly(visible: seq<Tour>, year: int, r: PlanRow)
    ensures r in PlanRows(visible, year) <==> r in Unwind(visible) && InWindow(year, r.date)
  {
    FilterMembership(InWindowOf(year), Unwind(visible), r);
  }

  /** One output document of the plan: the month (`_id`), how many start dates fall in it,
      and the names of the tours that start then. */
  datatype MonthGroup = MonthGroup(month: int, numOfTours: nat, tours: seq<string>)

  function RowMonth(r: PlanRow): int { MonthOf(r.date) }
  function RowName(r: PlanRow): Option<string> { r.name }

  /** The `$group` stage's document for month m: `$sum: 1` and `$push: '$name'`, which skips a
      row without a name. */
  function MonthGroupFor(rows: seq<PlanRow>, m: int): (g: MonthGroup)
    ensures g.month == m && g.numOfTours == |Members(RowMonth, rows, m)| && |g.tours| <= g.numOfTours
    ensures forall r :: r in rows && RowMonth(r) == m && r.name.Some? ==> r.name.value in g.tours
    ensures forall n :: n in g.tours ==> exists r :: r in rows && RowMonth(r) == m && r.name == Some(n)
  {
    var members := Members(RowMonth, rows, m);
    PresentMembers(RowName, members);
    MonthGroup(m, |members|, Present(RowName, members))
  }

  function MonthGroupOf(rows: seq<PlanRow>): int -> MonthGroup {
    m => MonthGroupFor(rows, m)
  }

  function NumOfToursOf(g: MonthGroup): int { g.numOfTours }

  /** `$sort: { numOfTours: -1 }`. */
  function CountKey(g: MonthGroup): Sorting.SortKey { Sorting.Number(g.numOfTours as real) }

  /** The plan pipeline after the hook's stage. `$project: { id: 0 }` names a field the groups
      do not have, so that stage changes nothing and is left out. The year is read from the
      route as a number and written into the two date strings, which denote midnight UTC only
      for a four-digit year. */
  function MonthlyPlan(visible: seq<Tour>, year: int): (p: seq<MonthGroup>)
    requires 1000 <= year <= 9999
    ensures Sorting.SortedDesc(CountKey, p)
    ensures forall i, j :: 0 <= i < j < |p| ==> p[i].numOfTours >= p[j].numOfTours
    ensures forall g :: g in p ==> 1 <= g.month <= 12 && g.numOfTours >= 1
  {
    var rows := PlanRows(visible, year);
    MonthGroupsFacts(rows);
    Sorting.SortDesc(CountKey, MapSeq(MonthGroupOf(rows), Keys(RowMonth, rows)))
  }

  /** A line of the sorted groups is a calendar month in which at least one row starts. */
  lemma MonthGroupsFacts(rows: seq<PlanRow>)
    ensures forall g :: g in Sorting.SortDesc(CountKey, MapSeq(MonthGroupOf(rows), Keys(RowMonth, rows))) ==>
      1 <= g.month <= 12 && g.numOfTours >= 1
  {
    var groups := MapSeq(MonthGroupOf(rows), Keys(RowMonth, rows));
    forall g | g in Sorting.SortDesc(CountKey, groups) ensures 1 <= g.month <= 12 && g.numOfTours >= 1 {
      Sorting.SortDescMembers(CountKey, groups, g);
      MapSeqMembership(MonthGroupOf(rows), Keys(RowMonth, rows), g);
      var r :| r in rows && RowMonth(r) == g.month;
      assert r in Members(RowMonth, rows, g.month);
    }
  }

  /** `getMonthlyPlan` on the whole collection: the hook's stage leaves the visible tours. */
  function GetMonthlyPlan(coll: seq<Tour>, year: int): (p: seq<MonthGroup>)
    requires 1000 <= year <= 9999
    ensures p == MonthlyPlan(Filter(TourModel.IsVisible, coll), year)
  {
    TourModel.AggregateStageZero([], coll);
    MonthlyPlan(TourModel.VisibleTours(coll), year)
  }

  /** A line belongs to the plan exactly when some row of the year starts in its month and the
      line is that month's group; its month is a calendar month, it counts at least one start,
      and it lists at most as many names as it counts starts. */
  lemma MonthlyPlanMembership(visible: seq<Tour>, year: int, g: MonthGroup)
    requires 1000 <= year <= 9999
    ensures g in MonthlyPlan(visible, year) <==>
      && (exists r :: r in PlanRows(visible, year) && r.date.month == g.month)
      && g == MonthGroupOf(PlanRows(visible, year))(g.month)
    ensures g in MonthlyPlan(visible, year) ==>
      1 <= g.month <= 12 && g.numOfTours >= 1 && |g.tours| <= g.numOfTours
  {
    var rows := PlanRows(visible, year);
    var groups := MapSeq(MonthGroupOf(rows), Keys(RowMonth, rows));
    Sorting.SortDescMembers(CountKey, groups, g);
    MapSeqMembership(MonthGroupOf(rows), Keys(RowMonth, rows), g);
    if g in MonthlyPlan(visible, year) {
      var r :| r in rows && RowMonth(r) == g.month;
      assert r in Members(RowMonth, rows, g.month);
    }
  }

  /** Every start date of a visible tour that falls in the window is counted in its month's
      line, and the tour's name, when it has one, is listed there. */
  lemma MonthlyPlanCovers(visible: seq<Tour>, year: int, t: Tour, d: UtcDate)
    requires 1000 <= year <= 9999
    requires t in visible && d in t.startDates && InWindow(year, d)
    ensures MonthGroupOf(PlanRows(visible, year))(d.month) in MonthlyPlan(visible, year)
    ensures t.name.Some? ==> t.name.value in MonthGroupOf(PlanRows(visible, year))(d.month).tours
  {
    var rows := PlanRows(visible, year);
    var r := PlanRow(t.name, d);
    UnwindComplete(visible, t, d);
    PlanRowsExactly(visible, year, r);
    MonthlyPlanMembership(visible, year, MonthGroupOf(rows)(d.month));
    assert r in Members(RowMonth, rows, d.month);
    if t.name.Some? {
      PresentContains(RowName, Members(RowMonth, rows, d.month), r);
    }
  }

  /** The counts add up to the number of start dates in the window. */
  lemma MonthlyPlanTotal(visible: seq<Tour>, year: int)
    requires 1000 <= year <= 9999
    ensures SumBy(NumOfToursOf, MonthlyPlan(visible, year)) == |PlanRows(visible, year)|
  {
    var rows := PlanRows(visible, year);
    var groups := MapSeq(MonthGroupOf(rows), Keys(RowMonth, rows));
    Sorting.SortDescSum(CountKey, NumOfToursOf, groups);
    GroupsPartition(RowMonth, rows, MonthGroupOf(rows), NumOfToursOf);
  }

  /** No month has two lines. */
  lemma MonthlyPlanDistinct(visible: seq<Tour>, year: int)
    requires 1000 <= year <= 9999
    ensures var p := MonthlyPlan(visible, year);
      forall i, j :: 0 <= i < j < |p| ==> p[i].month != p[j].month
  {
    var rows := PlanRows(visible, year);
    var groups := MapSeq(MonthGroupOf(rows), Keys(RowMonth, rows));
    var p := MonthlyPlan(visible, year);
    DistinctGroups(Keys(RowMonth, rows), MonthGroupOf(rows), (g: MonthGroup) => g.month);
    DistinctPermutation(groups, p);
    forall i, j | 0 <= i < j < |p| ensures p[i].month != p[j].month {
      assert p[i] in p && p[j] in p;
      MonthlyPlanMembership(visible, year, p[i]);
      MonthlyPlanMembership(visible, year, p[j]);
    }
  }

  /** When every visible tour has a name, each line lists exactly as many names as it counts starts. */
  lemma MonthlyPlanNamed(visible: seq<Tour>, year: int, g: MonthGroup)
    requires 1000 <= year <= 9999
    requires forall t :: t in visible ==> t.name.Some?
    requires g in MonthlyPlan(visible, year)
    ensures |g.tours| == g.numOfTours
  {
    var rows := PlanRows(visible, year);
    MonthlyPlanMembership(visible, year, g);
    var members := Members(RowMonth, rows, g.month);
    forall r | r in members ensures RowName(r).Some? {
      var t :| t in visible && r.name == t.name && r.date in t.startDates;
    }
    PresentAll(RowName, members);
  }
}
