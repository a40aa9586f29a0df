# Tours: tour and user documents, and the tour report handlers

This project models the core of a tour-booking REST service that stores tours and users in a
document database through a schema layer.

- **Tour model.**
  - The schema fields: their validators, defaults and `trim` setters.
  - The `save` hook that derives a tour's slug from its name.
  - The two read hooks that hide secret tours. The find hook merges `{ secretTour: { $ne: true } }` into every query's filter, field by field. On `secretTour` it replaces a plain value or an earlier `$ne`, and keeps other operators. The aggregate hook puts the same `$match` stage in front of every pipeline.
- **User model.**
  - The schema fields, with the lower-casing of email and the role default.
  - The two `save` hooks. The first hashes a modified password and drops the confirmation. The second stamps the change time, set back 5 s, when an already stored user changes password.
  - The find hook that hides deactivated users. It merges `{ active: { $ne: false } }` into the filter the same way.
  - `changedPasswordAfter`, which compares the change time, truncated to whole seconds, with a session token's issue time.
  - `createPasswordResetToken`, which hands out the hex text of 32 random bytes, stores only its SHA-256 digest, and sets an expiry 10 minutes later.
- **Tour controllers.**
  - `checkBody`, a truthiness test on name and price.
  - `aliasTopTours`, which rewrites the query string.
  - The statistics report. It keeps tours rated at least 4.5, groups them by difficulty, accumulates counts, sums, averages, minima and maxima, sorts by average price in descending order, and drops the group `EASY`.
  - The monthly plan. It unwinds start dates, keeps those inside the year's date window, groups them by month with a count and the tour names, and sorts by that count.

The database's semantics are modelled explicitly:

- `$ne` also matches a missing field.
- `$gte` matches only numbers.
- The accumulators ignore missing values, so `$avg`, `$min` and `$max` of nothing are null.
- `$push` skips a missing name.
- String lengths in `minlength` and `maxlength` are counted in UTF-16 code units, as JavaScript's `.length` counts them: a character outside the Basic Multilingual Plane counts twice.
- Null sorts last in a descending sort.

Module layout:

- `Seqs`: order-preserving filters, subsequences and distinctness.
- `Grouping`: the keys and members of `$group`.
- `Sorting`: a stable descending sort.
- `Accumulators`.
- `Dates`: UTC calendar instants.
- `Text`: `trim`, `lowercase` and UTF-16 length.
- `Hex`.
- `Documents`: field values, conditions, the field-by-field merge of a filter, and the query and pipeline objects that hooks change.
- `TourModel`.
- `UserModel`.
- `TourControllers`.

How the model reads the source:

- **Length options are honoured as spelt.** The length options are written `minLength` and `maxLength`. The schema layer's version is not part of this model, and the model assumes that the layer honours these spellings.
- **Schema typos count.** Behaviour follows the code as written, including its misspelt option keys. The difficulty's `reuqire` makes difficulty optional. The `defualt` on the user's `active` flag means a new user has no active flag. A user with no active flag is still returned by default reads.
- **The `EASY` stage drops nothing from valid data.** The statistics report's last stage compares with the upper-case `EASY`, while stored difficulties are lower case. `TourControllers.GetTourStatsOfValidTours` proves that over valid tours this stage removes nothing.
- **`maxRating` holds a price.** The statistics field `maxRating` is the greatest price, because the source accumulates `$max` over `price`. The field keeps its name and that meaning.
- **31 December is cut short.** The monthly plan's upper bound is midnight at the start of 31 December, with `$lte`. A start later that day is counted in no year (`TourControllers.InWindowMeaning`).
- **Side effects are parameters:**
  - the clock (`now`, and the instant at which the schema was loaded, which fixes the `createdAt` default once);
  - the random bytes;
  - slugify;
  - bcrypt;
  - the SHA-256 digest;
  - the email-format check.

## Model

| member | source | states |
|---|---|---|
| TourModel.TrimField | models/tourModel.js:11 | the `trim` setter keeps a value present, and what it leaves is already trimmed |
| TourModel.Construct | models/tourModel.js:6-77 | a constructed tour has maxGroupSize, ratingsAverage, ratingsQuantity, secretTour and createdAt set; name, summary and decription are present exactly when given, and trimmed |
| TourModel.ConstructDefaults | models/tourModel.js:6-77 | supplied values are kept; absent maxGroupSize becomes 0, ratingsAverage 4.5, ratingsQuantity 0, secretTour false, createdAt the schema-load instant; name, summary and decription are trimmed; every other field is copied unchanged |
| TourModel.TourDocument.constructor | models/tourModel.js:6-77 | a new tour document holds the constructed tour (trimmed text, defaults) |
| TourModel.NameErrors | models/tourModel.js:7-14 | the name path reports at most one error, on the name |
| TourModel.NameLengthInCodeUnits | models/tourModel.js:12 | a 40-character name that begins with an emoji is 41 UTF-16 code units long and fails maxlength |
| TourModel.DifficultyErrors | models/tourModel.js:22-29 | with `required` misspelt, an absent difficulty passes; a given one fails, with an enum error, exactly when it is not easy, medium or difficult |
| TourModel.RatingErrors | models/tourModel.js:32-37 | an absent rating passes; a given one fails exactly when it lies outside 1..5, with a min error below 1 and a max error above 5 |
| TourModel.DiscountErrors | models/tourModel.js:59-67 | an absent discount passes; a given one fails exactly when there is no price or it is not below the price |
| TourModel.OfferErrors | models/tourModel.js:42-71 | the summary, price, discount and cover validators report errors only on those four paths, and no path twice |
| TourModel.TourErrors | models/tourModel.js:7-71 | validation reports errors only on the eight validated paths, and no path twice |
| TourModel.ValidTour | models/tourModel.js:7-71 | a valid tour has a name of 5 to 40 characters, and its difficulty is never `EASY` |
| TourModel.ValidIffNoErrors | models/tourModel.js:7-71 | validation reports no error exactly when every field rule holds |
| TourModel.DiscountRule | models/tourModel.js:59-67 | a given discount is rejected exactly when it is not below a present price |
| TourModel.ConstructValidity | models/tourModel.js:7-71 | which inputs construct a valid tour: name, after trimming, 10 to 40 UTF-16 code units; duration, summary, price and cover present; difficulty optional but in the enum; rating within 1..5; discount below price |
| TourModel.TourDocument.Save | models/tourModel.js:126-129 | save returns the validation errors; on success the slug becomes slugify(name), on failure nothing changes |
| TourModel.HideSecretMeaning | models/tourModel.js:141 | the hook's condition holds exactly for tours whose secretTour is not true |
| TourModel.PreFind | models/tourModel.js:140-144 | the find hook merges the secret-tour exclusion into the query's filter and records its start time |
| TourModel.PreAggregate | models/tourModel.js:152-156 | the aggregate hook makes the exclusion stage 0 and keeps the other stages in order |
| TourModel.FindHidesSecret | models/tourModel.js:140-144 | a hooked find returns exactly the visible tours among those that the client's surviving conditions select; each returned tour is visible |
| TourModel.FindHidesSecretUntouched | models/tourModel.js:140-144 | when the client's filter does not name secretTour, the hook removes exactly the secret tours from its result |
| TourModel.SecretTourNotFound | models/tourModel.js:141 | a client's `secretTour=true` selects a secret tour, yet the merged filter returns nothing |
| TourModel.ClientNeOverwritten | models/tourModel.js:141 | the hook's `$ne` overwrites a client's `$ne` on secretTour, so a tour that `secretTour[ne]=false` alone drops is returned |
| TourModel.VisibleToursExactly | models/tourModel.js:152-156 | the visible tours are the non-secret ones, each as often as stored, in collection order, a subsequence of the collection |
| TourModel.AggregateStageZero | models/tourModel.js:154 | stage 0 of a hooked pipeline passes on exactly the visible tours |
| UserModel.LowerField | models/userModel.js:15 | the `lowercase` setter keeps a value present and leaves no upper-case ASCII letter |
| UserModel.Construct | models/userModel.js:11-46 | a constructed user has a role, the active flag as given, and an email, present when given, with no upper-case ASCII letter |
| UserModel.ConstructDefaults | models/userModel.js:11-46 | email is lower-cased, an absent role becomes 'user', the active flag gets no default, nothing else changes |
| UserModel.PasswordErrors | models/userModel.js:20-25 | the password path reports at most one error, on the password |
| UserModel.EmailErrors | models/userModel.js:11-17 | the email passes exactly when it is a non-empty string that the format check accepts; a missing or empty one is a required error, otherwise the format error |
| UserModel.ConfirmErrors | models/userModel.js:26-35 | the confirmation passes exactly when it is non-empty and equal to the password; a missing or empty one is a required error, otherwise the mismatch error |
| UserModel.RoleErrors | models/userModel.js:37-41 | an absent role passes; a given one fails, with an enum error, exactly when it is not one of the four roles |
| UserModel.PasswordLengthInCodeUnits | models/userModel.js:23 | a password of four emoji is eight UTF-16 code units long and passes minlength |
| UserModel.UserErrors | models/userModel.js:6-49 | validation reports errors only on name, email, password, confirmPassword and role, and no path twice |
| UserModel.ValidUser | models/userModel.js:6-49 | a valid user has a password of at least 4 characters and a confirmation |
| UserModel.ValidIffNoErrors | models/userModel.js:6-49 | validation reports no error exactly when every field rule holds |
| UserModel.ConstructValidity | models/userModel.js:7-41 | which inputs construct a valid user: name; well-formed email after lower-casing; password of 8 or more UTF-16 code units; equal confirmation; role, if given, in the enum |
| UserModel.WholeSeconds | models/userModel.js:77 | whole seconds of a millisecond instant, truncated toward zero on both sides of the epoch |
| UserModel.ChangedPasswordAfter | models/userModel.js:75-81 | a token counts as stale only when a change time exists and lies after the token's issue time |
| UserModel.NeverChangedInvalidatesNothing | models/userModel.js:75-81 | without a change time no token is considered stale |
| UserModel.ChangedPasswordAfterMonotone | models/userModel.js:75-81 | a token issued before a stale token is stale too |
| UserModel.ChangedPasswordAfterMeaning | models/userModel.js:75-81 | for a change at or after the epoch, a token is stale exactly when its issue second ended no later than the change |
| UserModel.UserDocument.constructor | models/userModel.js:6-49 | a new user document holds the constructed user, is new, and its password counts as modified when given |
| UserModel.UserDocument.Loaded | models/userModel.js:52 | a document read from the store is not new and has nothing modified |
| UserModel.UserDocument.SetPassword | models/userModel.js:52-59 | assigning a password and confirmation marks the password modified and changes nothing else |
| UserModel.UserDocument.HashPasswordHook | models/userModel.js:51-56 | a modified password is replaced by its hash and the confirmation removed; otherwise nothing changes |
| UserModel.UserDocument.StampPasswordChangeHook | models/userModel.js:58-64 | only for a modified password of a stored document, the change time becomes now minus 5000 ms |
| UserModel.UserDocument.Save | models/userModel.js:51-64 | validation runs first; errors leave the document unchanged; otherwise the hash and the stamp are applied, everything else kept, and the flags cleared |
| UserModel.UserDocument.CreatePasswordResetToken | models/userModel.js:83-94 | for 32 random bytes, the token returned is their hex text, 64 digits long; only its digest is stored; it expires 600000 ms after now; nothing else changes |
| UserModel.ResetTokenDeterminesRandom | models/userModel.js:84 | the token is 2 lower-case hex digits per byte, decodes back to the bytes, and differs for different bytes |
| UserModel.HideInactiveMeaning | models/userModel.js:67 | the hook's condition holds exactly for users whose active flag is not false |
| UserModel.PreFind | models/userModel.js:66-69 | the find hook merges the inactive-user exclusion into the filter and changes nothing else of the query |
| UserModel.FindHidesInactive | models/userModel.js:66-69 | a hooked find returns exactly the active users among those that the client's surviving conditions select; each returned user is active |
| UserModel.FindHidesInactiveUntouched | models/userModel.js:66-69 | when the client's filter does not name active, the hook removes exactly the users with active false |
| UserModel.InactiveUserNotFound | models/userModel.js:67 | a client's `active=false` selects a deactivated user, yet the merged filter returns nothing |
| UserModel.ActiveUsersExactly | models/userModel.js:42-46 | a hooked find returns the users whose flag is not false, including those with no flag, each as often as stored, in order |
| TourControllers.Truthy | controllers/tourControllers.js:8 | a value is truthy exactly when it is none of the six falsy values |
| TourControllers.CheckBody | controllers/tourControllers.js:7-15 | the outcome is either passing on or the 404 'Missing name or price' answer |
| TourControllers.CheckBodyPasses | controllers/tourControllers.js:7-15 | a body passes exactly when it has both keys and neither value is falsy |
| TourControllers.CheckBodyEdgeCases | controllers/tourControllers.js:8 | price 0, an empty name and a missing name are refused; the string "0" passes as a price |
| TourControllers.TopToursQuery | controllers/tourControllers.js:17-22 | the alias sets limit 5, the sort and the field list, and keeps every other key and value |
| TourControllers.TopToursQueryIdempotent | controllers/tourControllers.js:17-22 | aliasing twice is aliasing once; the client's own values for those keys do not matter |
| TourControllers.AliasTopTours | controllers/tourControllers.js:17-22 | the request's query becomes the aliased query |
| TourControllers.HighlyRatedMeaning | controllers/tourControllers.js:58-60 | the first stage's condition holds exactly for tours rated 4.5 or more |
| TourControllers.MatchedExactly | controllers/tourControllers.js:58-60 | the first stage keeps exactly the tours rated 4.5 or more, in order |
| TourControllers.StatsGroup | controllers/tourControllers.js:61-72 | a line carries its difficulty and counts its members; its price accumulators are present exactly when a member has a price; min ≤ avg ≤ max, and min and max bound every member's price |
| TourControllers.StatsGroupFacts | controllers/tourControllers.js:61-72 | a line of a difficulty that occurs counts at least one tour, and its average rating is present and at least 4.5 |
| TourControllers.TourStats | controllers/tourControllers.js:58-79 | the report is ordered by average price, highest first, groups without a price last, and has no `EASY` line |
| TourControllers.GetTourStats | controllers/tourControllers.js:57-80 | the report over a collection is the report over its visible tours |
| TourControllers.GetTourStatsIgnoresSecret | controllers/tourControllers.js:57-80 | adding a secret tour to the collection changes nothing in the report |
| TourControllers.TourStatsMembership | controllers/tourControllers.js:57-80 | a line is in the report exactly when some matched tour has its difficulty, that difficulty is not EASY, and the line is that difficulty's group |
| TourControllers.TourStatsCovers | controllers/tourControllers.js:61-72 | every matched tour not marked EASY is counted in its difficulty's line |
| TourControllers.TourStatsDistinct | controllers/tourControllers.js:61-64 | no difficulty has two lines |
| TourControllers.TourStatsTotal | controllers/tourControllers.js:61-79 | without EASY tours the last stage drops nothing and the counts add up to the number of matched tours |
| TourControllers.GetTourStatsOfValidTours | controllers/tourControllers.js:57-80 | over valid tours the EASY stage removes nothing and the counts add up to the visible tours rated 4.5 or more |
| TourControllers.Unwind | controllers/tourControllers.js:94-96 | one row per start date: the number of rows is the number of start dates, and each row comes from a tour's name and one of its dates |
| TourControllers.UnwindComplete | controllers/tourControllers.js:94-96 | every start date of every tour gives a row |
| TourControllers.InWindowMeaning | controllers/tourControllers.js:97-104 | a date is in the window exactly when it is in the year and not later than midnight starting 31 December |
| TourControllers.PlanRowsExactly | controllers/tourControllers.js:97-104 | the date match keeps exactly the unwound rows in the window |
| TourControllers.MonthGroupFor | controllers/tourControllers.js:105-111 | a month's line carries its month and counts its rows; it lists the name of every named row of the month and nothing else, so at most as many names as rows |
| TourControllers.MonthlyPlan | controllers/tourControllers.js:94-117 | the plan is ordered by count, highest first; every line is a calendar month with at least one start |
| TourControllers.GetMonthlyPlan | controllers/tourControllers.js:92-118 | the plan over a collection is the plan over its visible tours |
| TourControllers.MonthlyPlanMembership | controllers/tourControllers.js:105-114 | a line is in the plan exactly when some row of the year starts in its month and it is that month's group; months lie in 1..12, counts are at least 1, names at most the count |
| TourControllers.MonthlyPlanCovers | controllers/tourControllers.js:94-111 | every start date in the window is counted in its month's line, which lists the tour's name |
| TourControllers.MonthlyPlanTotal | controllers/tourControllers.js:105-111 | the counts add up to the number of start dates in the window |
| TourControllers.MonthlyPlanDistinct | controllers/tourControllers.js:105-111 | no month has two lines |
| TourControllers.MonthlyPlanNamed | controllers/tourControllers.js:108-109 | when every tour has a name, each line lists as many names as it counts |
| Text.Trim | models/tourModel.js:11 | trimming cuts only white space, from both ends: the result is a contiguous slice of the input, and neither of its ends is white space |
| Text.TrimIdempotent | models/tourModel.js:11 | trimming twice is trimming once |
| Text.ToLower | models/userModel.js:15 | ASCII lower-casing keeps the length and maps each character on its own |
| Text.ToLowerIdempotent | models/userModel.js:15 | lower-casing twice is lower-casing once and leaves no upper-case ASCII letter |
| Text.Utf16Length | models/tourModel.js:12-13 | a string's UTF-16 length lies between its length and twice that, and equals its length exactly when no character lies beyond the Basic Multilingual Plane |
| Text.Utf16LengthOfAstral | models/userModel.js:23 | an emoji counts two code units |
| Hex.HexEncode | models/userModel.js:84 | the hex text has two digits per byte, all lower-case hex digits |
| Hex.HexRoundTrip | models/userModel.js:84 | decoding the hex text gives the bytes back |
| Documents.SelectAppend | models/tourModel.js:141 | adding conditions to a query narrows its result by exactly those conditions |
| Documents.Holds | models/tourModel.js:141 | equality and `$gte` need the field; `$ne` matches a document that lacks the field; `$gte` holds only for a number at or above the bound |
| Documents.Merge | models/tourModel.js:141 | the merged filter holds the new condition and every earlier condition it does not displace, and nothing else |
| Documents.MergeUntouched | models/tourModel.js:141 | when nothing is displaced, merging appends the condition |
| Documents.SelectMerge | models/tourModel.js:141 | a merged filter selects what the surviving conditions select, narrowed by the new condition |
| Documents.MatchStage | models/tourModel.js:154 | a `$match` stage passes on only documents of its input that satisfy its conditions |
| Documents.DistinctPathsPrepend | models/tourModel.js:7-71 | one path's errors in front of errors on other paths leave no path reported twice |
| Grouping.Keys | controllers/tourControllers.js:64 | one group per key that occurs, no key twice |
| Grouping.Members | controllers/tourControllers.js:64 | a group holds exactly the elements with its key |
| Grouping.GroupsPartition | controllers/tourControllers.js:65 | the group sizes add up to the number of grouped documents |
| Sorting.SortDesc | controllers/tourControllers.js:74 | the sort output is in descending order and a permutation of its input |
| Sorting.SortDescSum | controllers/tourControllers.js:116 | sorting keeps the sum of any per-line count |
| Accumulators.Min | controllers/tourControllers.js:69 | `$min` is present exactly for a non-empty group, is one of the values and is below all of them |
| Accumulators.Max | controllers/tourControllers.js:70 | `$max` is present exactly for a non-empty group, is one of the values and is above all of them |
| Accumulators.AverageBetweenMinAndMax | controllers/tourControllers.js:67-70 | the average lies between the minimum and the maximum |
| Accumulators.PresentAll | controllers/tourControllers.js:109 | when no document lacks the field, `$push` collects one value per document |
| Accumulators.PresentMembers | controllers/tourControllers.js:109 | `$push` collects every value a document holds |
| Accumulators.Present | controllers/tourControllers.js:109 | `$push` collects at most one value per document, and every value it collects is held by some document |
| Accumulators.SumAppend | controllers/tourControllers.js:65-66 | `$sum` is additive: the total over two runs of documents is the sum of their totals |
| Accumulators.SumBounds | controllers/tourControllers.js:65-66 | the total of n values each between lo and hi lies between n·lo and n·hi |
| Accumulators.Average | controllers/tourControllers.js:67-68 | `$avg` is null exactly for no values; otherwise it times the number of values is their total |

## Left out

- TourControllers.MonthlyPlan: requires a four-digit year. For other route values (non-numeric, negative, fewer or more digits) the date strings do not denote midnight UTC, or do not parse at all. That behaviour is not modelled.
- Text.ToLower: lower-cases ASCII letters only, and so do Text.ToLowerIdempotent and UserModel.LowerField. A capital outside ASCII (such as `É`) is kept as it is. Unicode mappings that change the length (`İ` becomes two characters) are not modelled either.
- Text.ToLowerIdempotent: "no upper-case letter" covers ASCII letters only, for the same reason.
- UserModel.LowerField: the `lowercase` setter is modelled by Text.ToLower, so it has the same gap.
- UserModel.Construct: lower-cases the email in ASCII only, through Text.ToLower, so it has the same gap.
- UserModel.UserDocument.Save: always validates the password. The schema excludes `password` from reads by default (`select: false`). The schema layer skips validating a path that a read did not select and that was not modified, so a user loaded without its password saves without that check. The model's loaded document holds its stored password and checks it. Every other path a loaded document holds is validated there as in the model.
- TourModel.Construct: a field set to `null` cannot be written. The model writes such input as an absent field, so Construct gives it the default. The schema layer applies defaults only to undefined paths, so an explicit null is kept, and `$gte: 4.5` then drops such a tour from the statistics. UserModel.Construct has the same gap for a null role.
- TourModel.TourDocument.Save: the `unique` indexes on tour name and user email are store-side and produce a duplicate-key error, which is not modelled. The same holds for UserModel.UserDocument.Save.
- Documents.Condition: a filter holds only equality, `$ne` and `$gte` conditions. Other operators a client could send (`$gt`, `$lt`, `$lte`, `$in`) cannot be written. The merge would keep them, as it keeps `$gte`.
- Numbers are exact reals, so floating-point rounding in `$avg` and `$sum` is not modelled.
- `correctPassword` is left out: it is a single call to bcrypt's comparison, which is foreign code.
- These are left out because they have no behaviour beyond calls into the schema layer or logging:
  - the guide `populate` in the find hook;
  - the `reviews` and `durationWeeks` virtuals;
  - the indexes;
  - the post-find timing log;
  - the pipeline log in the aggregate hook.
- The `select: false` projection of `password` and `active` is left out: it changes what a read returns, not which documents it returns.
- `startLocation`, `locations` and the guide references are not modelled as fields that are checked. They have no validators the model states anything about.
- The inline `getAllTours` is left out; its export is overwritten by the factory handler. The factory handlers (`getAll`, `getOne`, `createOne`, `updateOne`, `deleteOne`) and the query-string feature class are not part of this model.
- The JSON response bodies of the two reports are left out. The reports are modelled as the sequences they return.
- Asynchronous error forwarding (`catchAsync`) is left out.
- Query-string values that Express parses into arrays or objects are not modelled; the query holds strings.
- The database leaves unspecified both the order of `$group` output and the order of lines with equal sort keys. The model fixes them: order of first appearance, then a stable sort. The lemmas about membership, counts, totals and sort order do not depend on that choice.
