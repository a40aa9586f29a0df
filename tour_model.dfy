/** Tour documents: field rules, defaults and setters applied on construction, the
    `save` hook that derives the slug, and the query and aggregation hooks that hide
    secret tours from every read. */
module TourModel {
  import opened Seqs
  import opened Dates
  import opened Documents
  import Text

  const NameMinLength := 10
  const NameMaxLength := 40
  const Difficulties: seq<string> := ["easy", "medium", "difficult"]
  const RatingMin: real := 1.0
  const RatingMax: real := 5.0
  const DefaultRatingsAverage: real := 4.5

  /** A tour as a document holds it; an absent field is None. `decription` is the
      schema's own spelling of that path. The GeoJSON start location and the
      waypoint list are not part of this model. */
  datatype Tour = Tour(
    name: Option<string>,
    slug: Option<string>,
    duration: Option<real>,
    maxGroupSize: Option<real>,
    difficulty: Option<string>,
    ratingsAverage: Option<real>,
    ratingsQuantity: Option<real>,
    summary: Option<string>,
    decription: Option<string>,
    secretTour: Option<bool>,
    price: Option<real>,
    priceDiscount: Option<real>,
    imageCover: Option<string>,
    images: seq<string>,
    createdAt: Option<int>,
    startDates: seq<UtcDate>,
    guides: seq<string>)

  /** The `trim` setter on an optional path: a present value loses its surrounding
      whitespace and stays present, so trimming it again changes nothing. */
  function TrimField(v: Option<string>): (r: Option<string>)
    ensures r.Some? == v.Some?
    ensures r.Some? ==> Text.Trim(r.value) == r.value
  {
    Text.TrimIdempotent(v.GetOr(""));
    match v
    case Some(s) => Some(Text.Trim(s))
    case None => None
  }

  /** The document `new Tour(input)` builds: the `trim` setters run on name, summary and
      decription, and each absent field that has a default takes it. The createdAt default
      was computed once, when the schema was defined; loadTime is that instant. */
  function Construct(input: Tour, loadTime: int): (t: Tour)
    ensures t.maxGroupSize.Some? && t.ratingsAverage.Some? && t.ratingsQuantity.Some?
    ensures t.secretTour.Some? && t.createdAt.Some?
    ensures t.name.Some? == input.name.Some? && t.summary.Some? == input.summary.Some?
    ensures t.decription.Some? == input.decription.Some?
    ensures t.name.Some? ==> Text.Trim(t.name.value) == t.name.value
    ensures t.summary.Some? ==> Text.Trim(t.summary.value) == t.summary.value
    ensures t.decription.Some? ==> Text.Trim(t.decription.value) == t.decription.value
  {
    input.(
      name := TrimField(input.name),
      summary := TrimField(input.summary),
      decription := TrimField(input.decription),
      maxGroupSize := Some(input.maxGroupSize.GetOr(0.0)),
      ratingsAverage := Some(input.ratingsAverage.GetOr(DefaultRatingsAverage)),
      ratingsQuantity := Some(input.ratingsQuantity.GetOr(0.0)),
      secretTour := Some(input.secretTour.GetOr(false)),
      createdAt := Some(input.createdAt.GetOr(loadTime)))
  }

  /** Supplied values are kept (after trimming), absent ones take their defaults, and the
      paths without a default or setter are copied unchanged. */
  lemma ConstructDefaults(input: Tour, loadTime: int)
    ensures var t := Construct(input, loadTime);
      && t.maxGroupSize == (if input.maxGroupSize.Some? then input.maxGroupSize else Some(0.0))
      && t.ratingsAverage == (if input.ratingsAverage.Some? then input.ratingsAverage else Some(4.5))
      && t.ratingsQuantity == (if input.ratingsQuantity.Some? then input.ratingsQuantity else Some(0.0))
      && t.secretTour == (if input.secretTour.Some? then input.secretTour else Some(false))
      && t.createdAt == (if input.createdAt.Some? then input.createdAt else Some(loadTime))
      && (input.name.Some? ==> t.name == Some(Text.Trim(input.name.value)))
      && (input.summary.Some? ==> t.summary == Some(Text.Trim(input.summary.value)))
      && (input.decription.Some? ==> t.decription == Some(Text.Trim(input.decription.value)))
      && t.(name := input.name, summary := input.summary, decription := input.decription,
            maxGroupSize := input.maxGroupSize, ratingsAverage := input.ratingsAverage,
            ratingsQuantity := input.ratingsQuantity, secretTour := input.secretTour,
            createdAt := input.createdAt) == input
  {
  }

  function NameErrors(name: Option<string>): (es: seq<FieldError>)
    ensures OnPath(es, "name")
  {
    if !RequiredString(name) then [FieldError("name", Required)]
    else if Text.Utf16Length(name.value) > NameMaxLength then [FieldError("name", MaxLength)]
    else if Text.Utf16Length(name.value) < NameMinLength then [FieldError("name", MinLength)]
    else []
  }

  /** The `difficulty` path has no `required` validator: its option key is misspelt
      `reuqire`, so only the enum validator applies, and it skips an absent value. */
  function DifficultyErrors(difficulty: Option<string>): (es: seq<FieldError>)
    ensures OnPath(es, "difficulty")
    ensures es == [] <==> (difficulty.Some? ==> difficulty.value in Difficulties)
    ensures es != [] ==> es[0].kind == Enum
  {
    if difficulty.Some? && difficulty.value !in Difficulties then [FieldError("difficulty", Enum)] else []
  }

  /** The `min` and `max` validators of the rating; both skip an absent value. */
  function RatingErrors(rating: Option<real>): (es: seq<FieldError>)
    ensures OnPath(es, "ratingsAverage")
    ensures es == [] <==> (rating.Some? ==> RatingMin <= rating.value <= RatingMax)
    ensures es != [] ==> es[0].kind == (if rating.value < RatingMin then Min else Max)
  {
    if rating.Some? && rating.value < RatingMin then [FieldError("ratingsAverage", Min)]
    else if rating.Some? && rating.value > RatingMax then [FieldError("ratingsAverage", Max)]
    else []
  }

  /** The custom validator `val < this.price`; it does not run when there is no discount,
      and `val < undefined` is false when there is no price. */
  function DiscountErrors(discount: Option<real>, price: Option<real>): (es: seq<FieldError>)
    ensures OnPath(es, "priceDiscount")
    ensures es == [] <==> (discount.Some? ==> price.Some? && discount.value < price.value)
    ensures es != [] ==> es[0].kind == UserDefined
  {
    if discount.Some? && !(price.Some? && discount.value < price.value) then [FieldError("priceDiscount", UserDefined)] else []
  }

  /** The paths whose validators can fail. */
  const ValidatedPaths: set<string> := {
    "name", "duration", "difficulty", "ratingsAverage", "summary", "price", "priceDiscount", "imageCover"}

  /** The paths validated after the rating: the summary, the price, its discount and the
      cover image. */
  const OfferPaths: set<string> := {"summary", "price", "priceDiscount", "imageCover"}

  /** The validation errors of the summary, price, discount and cover image, in schema order. */
  function OfferErrors(t: Tour): (errors: seq<FieldError>)
    ensures PathsIn(errors, OfferPaths)
    ensures DistinctPaths(errors)
  {
    var r8 := RequiredErrors("imageCover", !RequiredString(t.imageCover));
    var e7 := DiscountErrors(t.priceDiscount, t.price);
    DistinctPathsPrepend(e7, "priceDiscount", r8, {"imageCover"});
    var r7 := e7 + r8;
    var e6 := RequiredErrors("price", t.price.None?);
    DistinctPathsPrepend(e6, "price", r7, {"imageCover", "priceDiscount"});
    var r6 := e6 + r7;
    var e5 := RequiredErrors("summary", !RequiredString(t.summary));
    DistinctPathsPrepend(e5, "summary", r6, {"imageCover", "priceDiscount", "price"});
    assert {"imageCover", "priceDiscount", "price"} + {"summary"} == OfferPaths;
    e5 + r6
  }

  /** The validation errors of a document, one per failing path, in schema order. */
  function TourErrors(t: Tour): (errors: seq<FieldError>)
    ensures forall e :: e in errors ==> e.path in ValidatedPaths
    ensures DistinctPaths(errors)
  {
    var r5 := OfferErrors(t);
    var e4 := RatingErrors(t.ratingsAverage);
    DistinctPathsPrepend(e4, "ratingsAverage", r5, OfferPaths);
    var r4 := e4 + r5;
    var e3 := DifficultyErrors(t.difficulty);
    DistinctPathsPrepend(e3, "difficulty", r4, OfferPaths + {"ratingsAverage"});
    var r3 := e3 + r4;
    var e2 := RequiredErrors("duration", t.duration.None?);
    DistinctPathsPrepend(e2, "duration", r3, OfferPaths + {"ratingsAverage", "difficulty"});
    var r2 := e2 + r3;
    var e1 := NameErrors(t.name);
    DistinctPathsPrepend(e1, "name", r2, OfferPaths + {"ratingsAverage", "difficulty", "duration"});
    e1 + r2
  }

  /** The document rules stated field by field. A name's length is counted in UTF-16 code
      units, so a valid name has between 5 and 40 characters; a valid difficulty is never
      the upper-case `EASY`. */
  predicate ValidTour(t: Tour)
    ensures ValidTour(t) ==> t.name.Some? && 5 <= |t.name.value| <= NameMaxLength
    ensures ValidTour(t) ==> t.difficulty != Some("EASY")
  {
    && t.name.Some? && NameMinLength <= Text.Utf16Length(t.name.value) <= NameMaxLength
    && t.duration.Some?
    && (t.difficulty.Some? ==> t.difficulty.value in Difficulties)
    && (t.ratingsAverage.Some? ==> RatingMin <= t.ratingsAverage.value <= RatingMax)
    && t.summary.Some? && t.summary.value != ""
    && t.price.Some?
    && (t.priceDiscount.Some? ==> t.priceDiscount.value < t.price.value)
    && t.imageCover.Some? && t.imageCover.value != ""
  }

  /** A 40-character name that begins with an emoji is 41 UTF-16 code units long, so the
      maxlength validator rejects it. */
  lemma NameLengthInCodeUnits(s: string)
    requires |s| == NameMaxLength - 1 && forall i :: 0 <= i < |s| ==> (s[i] as int) < 0x10000
    ensures |"\U{1F600}" + s| == NameMaxLength
    ensures NameErrors(Some("\U{1F600}" + s)) == [FieldError("name", MaxLength)]
  {
    Text.Utf16LengthOfAstral(s);
  }

  /** Validation reports no error exactly when the document satisfies every rule. */
  lemma ValidIffNoErrors(t: Tour)
    ensures TourErrors(t) == [] <==> ValidTour(t)
  {
  }

  /** With a discount present, the discount path fails exactly when the discount is not below the price. */
  lemma DiscountRule(t: Tour)
    requires t.priceDiscount.Some?
    ensures FieldError("priceDiscount", UserDefined) in TourErrors(t)
            <==> !(t.price.Some? && t.priceDiscount.value < t.price.value)
  {
    var rest := TourErrors(t.(priceDiscount := None));
    assert forall e :: e in rest ==> e.path != "priceDiscount";
  }

  /** Which inputs construct a valid tour: the name is present and its TRIMMED length lies in
      [10, 40]; duration, price and a non-blank summary and cover image are present; a
      difficulty, if given, is in the lower-case enum and may be left out; a rating, if given,
      lies in [1, 5] (an omitted one defaults to 4.5); a discount, if given, is below the price. */
  lemma ConstructValidity(input: Tour, loadTime: int)
    ensures ValidTour(Construct(input, loadTime)) <==>
      && input.name.Some? && NameMinLength <= Text.Utf16Length(Text.Trim(input.name.value)) <= NameMaxLength
      && input.duration.Some?
      && (input.difficulty.Some? ==> input.difficulty.value in Difficulties)
      && (input.ratingsAverage.Some? ==> RatingMin <= input.ratingsAverage.value <= RatingMax)
      && input.summary.Some? && Text.Trim(input.summary.value) != ""
      && input.price.Some?
      && (input.priceDiscount.Some? ==> input.priceDiscount.value < input.price.value)
      && input.imageCover.Some? && input.imageCover.value != ""
  {
  }

  /** A tour document with Mongoose's `save`: validation runs first and, when it reports
      errors, nothing changes; otherwise the `pre('save')` hook sets the slug. */
  class TourDocument {
    var data: Tour

    constructor (input: Tour, loadTime: int)
      ensures data == Construct(input, loadTime)
    {
      data := Construct(input, loadTime);
    }

    /** slugify is the slug library's function with its `lower` option. */
    method Save(slugify: string -> string) returns (errors: seq<FieldError>)
      modifies this
      ensures errors == TourErrors(old(data))
      ensures errors == [] <==> ValidTour(old(data))
      ensures errors == [] ==> data == old(data).(slug := Some(slugify(old(data).name.value)))
      ensures errors != [] ==> data == old(data)
    {
      errors := TourErrors(data);
      ValidIffNoErrors(data);
      if errors == [] {
        data := data.(slug := Some(slugify(data.name.value)));
      }
    }
  }

  const TourPaths: set<string> := {
    "name", "slug", "duration", "maxGroupSize", "difficulty", "ratingsAverage", "ratingsQuantity",
    "summary", "decription", "secretTour", "price", "priceDiscount", "imageCover", "createdAt"}

  /** The value stored at a scalar path of a tour, if any. */
  function PathValue(t: Tour, path: string): Option<Value> {
    match path
    case "name" => StrValue(t.name)
    case "slug" => StrValue(t.slug)
    case "duration" => NumValue(t.duration)
    case "maxGroupSize" => NumValue(t.maxGroupSize)
    case "difficulty" => StrValue(t.difficulty)
    case "ratingsAverage" => NumValue(t.ratingsAverage)
    case "ratingsQuantity" => NumValue(t.ratingsQuantity)
    case "summary" => StrValue(t.summary)
    case "decription" => StrValue(t.decription)
    case "secretTour" => if t.secretTour.Some? then Some(Bool(t.secretTour.value)) else None
    case "price" => NumValue(t.price)
    case "priceDiscount" => NumValue(t.priceDiscount)
    case "imageCover" => StrValue(t.imageCover)
    case "createdAt" => if t.createdAt.Some? then Some(Instant(t.createdAt.value)) else None
    case _ => None
  }

  /** The scalar fields of a tour as the store sees them when it evaluates a filter. */
  function ToDocument(t: Tour): Document {
    map path | path in TourPaths && PathValue(t, path).Some? :: PathValue(t, path).value
  }

  /** The condition both read hooks add: `{ secretTour: { $ne: true } }`. */
  const HideSecret: Condition := Ne("secretTour", Bool(true))

  /** A tour that default reads return: its secretTour flag is not true (false or absent). */
  predicate IsVisible(t: Tour) {
    t.secretTour != Some(true)
  }

  lemma HideSecretMeaning(t: Tour)
    ensures MatchesAll([HideSecret], ToDocument(t)) <==> IsVisible(t)
  {
  }

  /** The tours a find query with these conditions returns from the collection. */
  function Find(conditions: seq<Condition>, coll: seq<Tour>): seq<Tour> {
    Select(conditions, ToDocument, coll)
  }

  /** `pre(/^find/)`: `this.find({ secretTour: { $ne: true } })` merges the secret-tour
      exclusion into the query's filter, and the query gets its start time. */
  method PreFind(q: Query, now: int)
    modifies q
    ensures q.conditions == Merge(old(q.conditions), HideSecret)
    ensures q.start == Some(now)
  {
    q.conditions := Merge(q.conditions, HideSecret);
    q.start := Some(now);
  }

  /** `pre('aggregate')`: the secret-tour exclusion becomes stage 0; the original stages follow unchanged. */
  method PreAggregate(a: Aggregate)
    modifies a
    ensures a.pipeline == [Match([HideSecret])] + old(a.pipeline)
    ensures a.pipeline[0] == Match([HideSecret]) && a.pipeline[1..] == old(a.pipeline)
  {
    a.pipeline := [Match([HideSecret])] + a.pipeline;
  }

  /** The tours that stage 0 of a hooked pipeline, or a hooked empty find, lets through. */
  function VisibleTours(coll: seq<Tour>): seq<Tour> {
    Find([HideSecret], coll)
  }

  /** Whatever a find asks for, the hooked query returns exactly the visible tours among what
      the client's conditions that survive the merge select; a client condition on secretTour
      that the merge displaces has no effect. */
  lemma FindHidesSecret(conditions: seq<Condition>, coll: seq<Tour>)
    ensures Find(Merge(conditions, HideSecret), coll)
            == Seqs.Filter(IsVisible, Find(Seqs.Filter(Survivors(HideSecret), conditions), coll))
    ensures forall t :: t in Find(Merge(conditions, HideSecret), coll) ==> IsVisible(t)
  {
    var kept := Seqs.Filter(Survivors(HideSecret), conditions);
    SelectMerge(conditions, HideSecret, ToDocument, coll);
    var before := Find(kept, coll);
    forall t | t in before ensures MatchesAll([HideSecret], ToDocument(t)) == IsVisible(t) {
      HideSecretMeaning(t);
    }
    SelectAsFilter([HideSecret], ToDocument, before, IsVisible);
    forall t | t in Find(Merge(conditions, HideSecret), coll) ensures IsVisible(t) {
      FilterMembership(IsVisible, before, t);
    }
  }

  /** A client filter that does not name secretTour is narrowed to its visible tours. */
  lemma FindHidesSecretUntouched(conditions: seq<Condition>, coll: seq<Tour>)
    requires forall c :: c in conditions ==> c.field != "secretTour"
    ensures Find(Merge(conditions, HideSecret), coll) == Seqs.Filter(IsVisible, Find(conditions, coll))
  {
    MergeUntouched(conditions, HideSecret);
    FindHidesSecret(conditions, coll);
    FilterKeepsAll(Survivors(HideSecret), conditions);
  }

  /** A client cannot read a secret tour through a find: asking for `secretTour=true` selects
      it, yet the merged filter replaces that value with `{ $ne: true }`. */
  lemma SecretTourNotFound(t: Tour)
    requires t.secretTour == Some(true)
    ensures Find([Eq("secretTour", Bool(true))], [t]) == [t]
    ensures Find(Merge([Eq("secretTour", Bool(true))], HideSecret), [t]) == []
  {
    FindHidesSecret([Eq("secretTour", Bool(true))], [t]);
    assert ToDocument(t)["secretTour"] == Bool(true);
    assert Find([Eq("secretTour", Bool(true))], [t]) == [t] by {
      assert Select([Eq("secretTour", Bool(true))], ToDocument, [t][1..]) == [];
    }
  }

  /** The hook's `$ne` overwrites a client's `$ne` on secretTour: a tour that is not secret,
      which `secretTour[ne]=false` alone would drop, is returned by the merged filter. */
  lemma ClientNeOverwritten(t: Tour)
    requires t.secretTour == Some(false)
    ensures Find([Ne("secretTour", Bool(false))], [t]) == []
    ensures Find(Merge([Ne("secretTour", Bool(false))], HideSecret), [t]) == [t]
  {
    FindHidesSecret([Ne("secretTour", Bool(false))], [t]);
    assert ToDocument(t)["secretTour"] == Bool(false);
    assert Seqs.Filter(Survivors(HideSecret), [Ne("secretTour", Bool(false))]) == [];
    SelectNothing(ToDocument, [t]);
    assert IsVisible(t);
  }

  /** The visible tours are exactly the tours whose secretTour is not true, each as often as in
      the collection, in collection order. */
  lemma VisibleToursExactly(coll: seq<Tour>, t: Tour)
    ensures VisibleTours(coll) == Seqs.Filter(IsVisible, coll)
    ensures t in VisibleTours(coll) <==> t in coll && IsVisible(t)
    ensures multiset(VisibleTours(coll))[t] == if IsVisible(t) then multiset(coll)[t] else 0
    ensures IsSubsequence(VisibleTours(coll), coll)
  {
    FindHidesSecretUntouched([], coll);
    MergeUntouched([], HideSecret);
    assert [] + [HideSecret] == [HideSecret];
    SelectNothing(ToDocument, coll);
    FilterMembership(IsVisible, coll, t);
    FilterMultiplicity(IsVisible, coll, t);
    FilterIsSubsequence(IsVisible, coll);
  }

  /** The hooked pipeline's first stage passes on exactly the visible tours. */
  lemma AggregateStageZero(pipeline: seq<Stage>, coll: seq<Tour>)
    ensures MatchStage(([Match([HideSecret])] + pipeline)[0], ToDocument, coll) == Seqs.Filter(IsVisible, coll)
  {
    FindHidesSecretUntouched([], coll);
    MergeUntouched([], HideSecret);
    assert [] + [HideSecret] == [HideSecret];
    SelectNothing(ToDocument, coll);
  }
}
