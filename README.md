# DevCamper: ownership rules and denormalised aggregates

A Dafny model of the ownership and aggregate logic of the DevCamper bootcamp
directory API. The model covers:

- the bootcamp and course controllers;
- the Course and Review schemas, with their validators and the unique
  (bootcamp, user) review index;
- the `getAverageCost` and `getAverageRating` statics, which write the mean
  tuition and mean rating onto the parent bootcamp;
- the save and remove hooks that run those statics.

The database is a `class Store`. It holds three maps keyed by document id
(`bootcamps`, `courses`, `reviews`) and one counter, `nextId`, that supplies
fresh ids. Each controller handler is a method of the store. Each method
states its result tag (which stands for the HTTP status) and its new state in
terms of specification functions over the old state. The properties the code
promises are proved as lemmas about those functions.

Files:

- `common.dfy` (module `Common`): ids, `Option` and `Outcome`, the error tags,
  the acting user, and the ownership guard (`CanMutate`, `CanCreateBootcamp`).
  It also holds the Bootcamp record and `Matching`, the `$match` stage of both
  aggregate pipelines.
- `text.dfy` (`Text`): the schemas' `trim` and the UTF-16 length that `maxlength` compares, `startsWith`, the textual form of
  an id, and the extension part of `path.parse`.
- `arith.dfy` (`Arithmetic`): the rounded-up integer quotient behind `Math.ceil`, and small real-number facts the mean brackets use.
- `course.dfy` (`CourseModel`): the Course schema, `findByIdAndUpdate` with
  validators, and the average cost, rounded up to a multiple of ten.
- `review.dfy` (`ReviewModel`): the Review schema, the unique index, and the
  average rating.
- `store.dfy` (`Devcamper`): the photo file name, and `class Store` with the
  handlers and the hook-driven create and remove operations.

## Model

| member | source | states |
|---|---|---|
| Devcamper.Store.GetBootcamp | controllers/bootcamps.js:18-29 | a known id returns the stored bootcamp; an unknown id gives NotFound (404); nothing changes |
| Devcamper.Store.CreateBootcamp | controllers/bootcamps.js:34-57 | fails, with AlreadyPublished (400), exactly when the actor is not an admin and already owns a bootcamp; on failure nothing is stored; on success the body is stored under the store's next id, which then advances by one (a failure leaves it), with `user` set to the actor's id whatever the body said, and a non-admin then owns at most one bootcamp |
| Devcamper.Store.UpdateBootcamp | controllers/bootcamps.js:62-85 | unknown id gives NotFound; a non-owner non-admin gives Unauthorized (404); it succeeds exactly when the bootcamp exists and the actor owns it or is an admin; success replaces only that bootcamp, with the body's fields applied; failure changes nothing |
| Devcamper.Store.DeleteBootcamp | controllers/bootcamps.js:90-111 | the same 404 and ownership outcomes as update; success removes exactly that bootcamp; courses and reviews are left as they are, since a cascade would live in the bootcamp model's remove hook, which is not part of this model |
| Devcamper.Store.PhotoUpload | controllers/bootcamps.js:145-194 | after the 404 and ownership checks, the failures are, in this order: no files (400), no `file` field (TypeError), a mimetype not starting with "image" (400), a size above MAX_FILE_UPLOAD when that is set (400), and a failed move (500); an accepted upload writes only the bootcamp's `photo`, and both writes and returns `PhotoName(id, name)`; a rejection changes nothing |
| Devcamper.PhotoName | controllers/bootcamps.js:181 | the name starts with "photo_" and ends with the upload's extension |
| Devcamper.PhotoNameInjective | controllers/bootcamps.js:181 | distinct bootcamps never get the same photo name, and the name determines the extension |
| Devcamper.LeadingDigitsOfSplit | controllers/bootcamps.js:181 | in a photo name, the id's digits end exactly where the extension, empty or starting with '.', begins |
| Devcamper.DigitsThenExtension | controllers/bootcamps.js:181 | an id's digits followed by an extension can be split back in one way only |
| Devcamper.Store.GetCourses | controllers/courses.js:11-19 | returns exactly the courses whose `bootcamp` is the given id, each paired with its id, in increasing id order, with `count` equal to their number |
| Devcamper.Store.GetCourse | controllers/courses.js:29-45 | a known id returns the stored course; an unknown id gives NotFound |
| Devcamper.Store.AddCourse | controllers/courses.js:51-77 | unknown bootcamp gives NotFound; a non-owner non-admin gives Unauthorized; it succeeds exactly when those pass and the stamped body validates; when both checks pass and the stamped body fails validation it gives Invalid; the new course carries the path's bootcamp and the actor as `user`; it is stored under the store's next id, which advances by one; the parent's average cost is then recomputed with the new course included; a failure creates no course and leaves the next id |
| Devcamper.Store.UpdateCourseAsWritten | controllers/courses.js:82-93 | as the handler runs against the Course schema as written, where no stored course has a `user`: an unknown id gives NotFound, and every existing course gives a TypeError before the update, whoever asks; nothing changes |
| Devcamper.Store.UpdateCourse | controllers/courses.js:82-104 | as intended, with `user` stored: unknown id gives NotFound; a course without `user` gives a TypeError; a non-owner non-admin gives Unauthorized; when allowed, the result is the validated update and only that course changes; bootcamps are untouched, because an update is not a save |
| Devcamper.Store.DeleteCourseAsWritten | controllers/courses.js:110-123 | as the handler is written: an unknown id gives NotFound, and every existing course gives a ReferenceError before `remove`, whoever asks |
| Devcamper.Store.DeleteCourse | controllers/courses.js:110-129 | as intended: NotFound, then the ownership check on the course's `user` (TypeError when it is unset, Unauthorized for a non-owner non-admin); success removes exactly that course after the pre-remove recompute; failure changes nothing |
| Devcamper.Store.GetAverageCost | models/Course.js:42-63 | the bootcamps afterwards are `CostRecomputed` of the current courses |
| Devcamper.Store.CreateCourse | models/Course.js:3-39 | fails, with Invalid, exactly when the body does not validate, and then changes nothing, the next id included; otherwise the course is stored under the next id, which advances by one, and the post-save hook recomputes its bootcamp's cost with it included |
| Devcamper.Store.RemoveCourse | models/Course.js:71-73 | the course is removed, and the bootcamps are `CostRecomputed` over the courses as they were before the removal |
| Devcamper.Store.GetAverageRating | models/Review.js:41-62 | the bootcamps afterwards are `RatingRecomputed` of the current reviews |
| Devcamper.Store.CreateReview | models/Review.js:3-38 | an invalid body gives Invalid; a second review by the same user for the same bootcamp gives DuplicateKey; it succeeds exactly when the body validates and that user has not yet reviewed that bootcamp; either failure changes nothing; otherwise the review is stored under the next fresh id, the index invariant still holds, and the post-save hook recomputes the rating with the new review included |
| Devcamper.Store.InsertReview | models/Review.js:3-38 | the validation and insert before the hook: Invalid for a rejected body, DuplicateKey for a second review by the same user of the same bootcamp, success exactly when neither applies, and on success exactly that review added under the next fresh id, with the store invariant kept |
| Devcamper.ConsistentWithReview | models/Review.js:38 | a valid review by a user who has not yet reviewed that bootcamp can be stored under the fresh id without breaking the store invariant |
| Devcamper.ConsistentWithCourse | models/Course.js:3-39 | a valid course can be stored under the fresh id without breaking the store invariant |
| Devcamper.Store.RemoveReview | models/Review.js:70-72 | the review is removed, and the bootcamps are `RatingRecomputed` over the reviews as they were before the removal |
| Common.Matching | models/Course.js:44-48 | every id it yields is below the bound, is present, and points at the bootcamp; the ids are strictly increasing |
| Common.MatchingExact | models/Course.js:44-48 | an id is matched if and only if it is present, below the bound and points at the bootcamp |
| Common.MatchingComplete | models/Course.js:44-48 | every child of the bootcamp below the bound is matched |
| Common.MatchingAgree | models/Review.js:42-47 | two collections whose ids point at the bootcamp in the same way give the same matches |
| Common.MatchingInsert | models/Course.js:66-68 | saving a child under a fresh id appends it to the matches of its own bootcamp only |
| Common.MatchingEmpty | models/Course.js:56-62 | with no child of the bootcamp, nothing matches |
| Common.MatchingSingle | models/Course.js:71-73 | with exactly one child of the bootcamp, exactly that child matches |
| Common.CanMutate | controllers/bootcamps.js:71 | the ownership guard of every mutating handler: the document's owner and any admin may change it, nobody else |
| Common.IsAdmin | controllers/bootcamps.js:42 | a user is an admin exactly when the role is "admin" |
| Common.CanCreateBootcamp | controllers/bootcamps.js:42 | an admin may always publish; another user only while owning no bootcamp |
| Common.Publishes | controllers/bootcamps.js:39 | a user publishes when some stored bootcamp has that user as owner |
| Common.Patched | controllers/bootcamps.js:77 | an update body replaces exactly the fields it sets and keeps the others |
| Common.Status | controllers/bootcamps.js:44-186 | 404 exactly for a missing document and a refused owner (as at bootcamps.js:73,101,156 and courses.js:68,92); 400 exactly for a second bootcamp, a missing file, a non-image and a file over the limit; 500 exactly for a failed move; no status of its own for validation, duplicate-key and runtime errors |
| Devcamper.TooLarge | controllers/bootcamps.js:171 | a file is refused for size only when a limit is set and the size exceeds it |
| Text.IsSpace | models/Course.js:6 | the characters `trim` removes: tab, LF, vertical tab, form feed, CR, the byte order mark, the line and paragraph separators, and the space separators |
| Text.Trim | models/Course.js:6 | the result is a slice of the input with only whitespace cut off on each side and no whitespace at either end; it is no longer than the input |
| Text.TrimUnique | models/Course.js:6 | any such slice is the result of `Trim`, so the contract determines it |
| Text.TrimExamples | models/Review.js:6 | " Web " trims to "Web", a lone form feed to "", and a word between a no-break space and a byte order mark to the word |
| Text.TrimBlank | models/Course.js:6-7 | the trimmed title is empty, and so fails `required`, exactly when the input is all whitespace |
| Text.TrimFixed | models/Review.js:6 | a title with no outer whitespace is kept as it is |
| Text.TrimmedIsFixedPoint | models/Review.js:6 | `trim` leaves a string unchanged if and only if neither end is whitespace |
| Text.TrimIdempotent | models/Review.js:6 | trimming a trimmed title changes nothing |
| Text.Utf16Length | models/Review.js:8 | the length `maxlength` compares, in UTF-16 code units: between the number of characters and twice that; exactly the number of characters when every character lies in the Basic Multilingual Plane, and exactly twice that when every character lies outside it |
| Text.Utf16LengthBmp | models/Review.js:8 | for characters of the Basic Multilingual Plane only, it is the number of characters |
| Text.Utf16LengthAppend | models/Review.js:8 | the length of two joined strings is the sum of their lengths |
| Text.Utf16LengthAstral | models/Review.js:8 | for characters outside the Basic Multilingual Plane only, it is twice the number of characters |
| Text.StartsWith | controllers/bootcamps.js:167 | `s` begins with `prefix` |
| Text.Decimal | controllers/bootcamps.js:181 | the textual id is a nonempty string of digits |
| Text.DecimalRoundTrip | controllers/bootcamps.js:181 | parsing the textual id gives the id back |
| Text.DecimalInjective | controllers/bootcamps.js:181 | distinct ids have distinct textual forms |
| Text.LastDot | controllers/bootcamps.js:181 | the index found holds a '.' with no later '.'; no index means no '.' at all |
| Text.Ext | controllers/bootcamps.js:181 | the extension is a suffix of the name, either empty or a '.' followed by no other '.'; it is nonempty exactly when the name is not ".." and has a '.' after its first character |
| Text.ExtExamples | controllers/bootcamps.js:181 | "a.jpg" gives ".jpg", "a.b.c" gives ".c", and "shot." gives "." |
| Text.ExtEmptyExamples | controllers/bootcamps.js:181 | "abc", ".rc" and ".." have no extension |
| CourseModel.ParseSkill | models/Course.js:21-25 | accepts exactly the three skill names and returns the skill so named |
| CourseModel.ValidCourse | models/Course.js:3-39 | what a stored course satisfies: a nonempty trimmed title, a nonempty description and weeks |
| CourseModel.CourseFromBody | models/Course.js:3-39 | accepted exactly when the title trims to something nonempty, description and weeks are nonempty, tuition is present, the skill is one of the three names and the bootcamp is set; an accepted body gives a valid course whose fields come from the body, with the title trimmed, the scholarship flag true only when the body says true (it defaults to false) and `user` copied when given; a refusal is Invalid |
| CourseModel.CourseFromBodyExample | models/Course.js:3-29 | a body with a padded title and no scholarship flag is accepted with the title trimmed and the flag false |
| CourseModel.CourseBodyRoundTrip | models/Course.js:3-39 | every valid course is accepted back from a body spelling out its own fields |
| CourseModel.PatchCourse | controllers/courses.js:95-98 | an accepted update of a valid course is valid; a title that trims to nothing, or an empty description or weeks, is refused with Invalid; an update is accepted exactly when none of those holds and a given `minimumSkill` names one of the three levels |
| CourseModel.PatchKeepsUnsetFields | controllers/courses.js:95-98 | an accepted update keeps every field the body does not set |
| CourseModel.PatchSetsGivenFields | controllers/courses.js:95-98 | an accepted update stores every field the body sets, the title trimmed |
| CourseModel.OwnerCheck | controllers/courses.js:91 | passes exactly when the course has a `user` and that user may change it; an unset `user` throws a TypeError, any other refusal is Unauthorized |
| CourseModel.CreatorPassesOwnerCheck | controllers/courses.js:54-91 | with `user` stored, the creator stamped by addCourse passes the later ownership check |
| CourseModel.CourseFromBodyAsWritten | models/Course.js:3-39 | with the schema as written, creation accepts the same bodies but the stored course never has a `user` |
| CourseModel.AsWrittenOwnerCheckThrows | controllers/courses.js:91 | with the schema as written, the ownership check throws a TypeError for every created course, even for its creator |
| CourseModel.CoursesOf | models/Course.js:44-48 | only present courses of the bootcamp, below the bound, are matched |
| Arithmetic.CeilDivBounds | models/Course.js:58 | the rounded-up quotient `q` of `a` by `d` satisfies `a <= q*d < a + d` |
| Arithmetic.CeilDivUnique | models/Course.js:58 | any `q` with `a <= q*d < a + d` is the rounded-up quotient, so those bounds define it |
| CourseModel.RoundUpToTen | models/Course.js:58 | `Math.ceil(mean / 10) * 10` in integers; its meaning is the contract of the two lemmas below |
| CourseModel.RoundUpMultipleOfTen | models/Course.js:58 | the written cost is a multiple of ten |
| CourseModel.RoundUpBrackets | models/Course.js:58 | the result `r` satisfies `sum <= r*count < sum + 10*count`, so it is the least multiple of ten at or above the mean |
| CourseModel.RoundUpBracketsMean | models/Course.js:58 | `mean <= r < mean + 10`, with the mean taken exactly |
| CourseModel.RoundUpExamples | models/Course.js:58 | tuitions [101, 104] give 110, and [100, 200, 300] give 200 |
| CourseModel.AverageCost | models/Course.js:42-55 | there is no value exactly when no course matches |
| CourseModel.AverageCostBracketsMean | models/Course.js:42-58 | the written cost lies in [mean, mean + 10) of the matched tuitions |
| CourseModel.CostRecomputed | models/Course.js:56-62 | keeps the same bootcamp ids; no bootcamp other than the target changes; with no matching course nothing changes; otherwise only the target's `averageCost` changes, to the computed average |
| CourseModel.OnlyMatchingCoursesCount | models/Course.js:44-48 | collections that agree on the bootcamp's courses and their tuitions give the same average, so the other courses do not influence it |
| CourseModel.TuitionSumAgree | models/Course.js:52 | the tuition sum depends only on the tuitions of the ids summed |
| CourseModel.SavedCourseMatches | models/Course.js:66-68 | after a save under a fresh id, the bootcamp's matches are the earlier ones plus the new id |
| CourseModel.SavedTuitionSum | models/Course.js:52 | after a save under a fresh id, the sum over the new matches is the earlier sum plus the new tuition |
| CourseModel.SavedCourseCounted | models/Course.js:66-68 | the post-save average is the rounded mean of the earlier tuitions together with the new one |
| CourseModel.RemovedSoleCourseStillCounted | models/Course.js:71-73 | the pre-remove recompute still counts the course being removed; when it is the bootcamp's only course, the written cost is its own tuition rounded up, and after removal nothing matches, so nothing clears that cost |
| CourseModel.SoleCourseAverage | models/Course.js:71-73 | with one course of the bootcamp, the average is that course's tuition rounded up to ten |
| CourseModel.NoCourseAfterRemoval | models/Course.js:71-73 | once the only course of a bootcamp is removed, no course matches and the average has no value |
| CourseModel.AverageCostExample | models/Course.js:42-58 | tuitions 101 and 104 for bootcamp 1, plus 999 for another bootcamp, give 110 |
| ReviewModel.ValidReview | models/Review.js:3-35 | what a stored review satisfies: a nonempty trimmed title of at most 100 UTF-16 code units, nonempty text, a rating in [1, 10] |
| ReviewModel.ReviewFromBody | models/Review.js:3-35 | accepted exactly when every field is present and the review built from them, with the title trimmed, is valid; an accepted body gives that review; a refusal is Invalid |
| ReviewModel.BlankTitleRejected | models/Review.js:5-7 | a title of whitespace only, of any kind `trim` removes, is refused |
| ReviewModel.FormFeedTitleRejected | models/Review.js:5-7 | a title that is a lone form feed is refused |
| ReviewModel.EmojiTitleLimit | models/Review.js:5-8 | a title of 50 emoji (100 code units) is accepted, one of 51 emoji (102 code units) is refused with Invalid |
| ReviewModel.ReviewBodyRoundTrip | models/Review.js:3-35 | every valid review is accepted back from its own body |
| ReviewModel.RatingOutOfRangeRejected | models/Review.js:14-18 | a rating outside [1, 10] is always rejected |
| ReviewModel.HasReviewBy | models/Review.js:38 | some stored review has this bootcamp and this user |
| ReviewModel.UniqueReviewers | models/Review.js:38 | the unique (bootcamp, user) index: no two stored reviews share both |
| ReviewModel.InsertKeepsUnique | models/Review.js:38 | inserting under a fresh id keeps the (bootcamp, user) index intact exactly when that user has not yet reviewed that bootcamp |
| ReviewModel.RemoveKeepsUnique | models/Review.js:38 | removing a review keeps the index intact |
| ReviewModel.ReviewsOf | models/Review.js:43-47 | only present reviews of the bootcamp, below the bound, are matched |
| ReviewModel.AverageRating | models/Review.js:41-54 | there is no value exactly when no review matches |
| ReviewModel.AverageRatingIsMean | models/Review.js:49-58 | the written value times the number of matched reviews equals the sum of their ratings, so it is the unrounded mean |
| ReviewModel.RatingRecomputed | models/Review.js:55-61 | keeps the same bootcamp ids; no other bootcamp changes; with no matching review nothing changes; otherwise only the target's `averageRating` changes, to the mean |
| ReviewModel.RatingSumBounds | models/Review.js:14-18 | the sum of n valid ratings lies in [1·n, 10·n] |
| ReviewModel.AverageRatingInRange | models/Review.js:56-58 | when reviews exist, the written mean lies in [1, 10] |
| ReviewModel.MeanInRange | models/Review.js:57 | a sum in [c, 10c] over a positive count c has a mean in [1, 10] |
| ReviewModel.RatingSumAgree | models/Review.js:51 | the rating sum depends only on the ratings of the ids summed |
| ReviewModel.OnlyMatchingReviewsCount | models/Review.js:43-47 | collections that agree on the bootcamp's reviews and their ratings give the same average |
| ReviewModel.SavedReviewMatches | models/Review.js:65-67 | after a save under a fresh id, the bootcamp's matches are the earlier ones plus the new id |
| ReviewModel.SavedRatingSum | models/Review.js:51 | after a save under a fresh id, the sum over the new matches is the earlier sum plus the new rating |
| ReviewModel.SavedReviewCounted | models/Review.js:65-67 | the post-save mean includes the new review's rating |
| ReviewModel.RemovedSoleReviewStillCounted | models/Review.js:70-72 | the pre-remove recompute still counts the review being removed; for a bootcamp's only review it writes that review's rating, and afterwards nothing matches |
| ReviewModel.SoleReviewAverage | models/Review.js:70-72 | with one review of the bootcamp, the average is that review's rating |
| ReviewModel.NoReviewAfterRemoval | models/Review.js:70-72 | once the only review of a bootcamp is removed, no review matches and the average has no value |
| ReviewModel.AverageRatingExample | models/Review.js:41-58 | ratings 8 and 6 give 7 |

## Left out

- getBootcampsInRadius is not modelled. It depends on an external geocoder, floating-point geometry and the database's `$geoWithin` operator.
- getBootcamps and the `advancedResults` branch of getCourses are not modelled. That middleware is not part of this model.
- The file system behind `file.mv` is not modelled. Its outcome is the `moved` parameter of `PhotoUpload`.
- `MAX_FILE_UPLOAD` and `FILE_UPLOAD_PATH` come from the environment. The first is the store's `maxFileUpload`; when it is unset, `size > undefined` is false and no size is refused. The second only names the directory, so it is left out.
- The HTTP responses and the error-handling middleware are abstracted. Each failure is an `Error` tag, and `Common.Status` gives the status the code attaches to it (the ownership failures use 404, as the code does).
- The hooks start the recompute without awaiting it. The model runs it as a synchronous step, so interleavings with other requests are not modelled.
- `createdAt` defaults to the clock value taken when the schema is loaded. It is left out of both records.
- models/Bootcamps.js is not part of this model. Its own hooks (geocoding, slug, any cascade on remove), its validators and its other fields are reduced to `name`. `UpdateBootcamp` therefore applies the body with no schema validation.
- CourseFromBody: `tuition` is a natural number. The schema declares it a String, and the database's `$avg` skips string values.
- CourseModel.AverageCost: for this reason, the model averages tuitions as numbers, as the computation plainly intends. As written, with every tuition stored as a string, `$avg` yields null, and models/Course.js:58 writes `Math.ceil(null / 10) * 10`, which is 0, as the average cost; the model does not capture that 0.
- Course `user`: the Course schema declares no `user` path, so under the ORM's strict mode the `user` that addCourse stamps is not stored (see Findings). The model's `Course` carries an optional `user`, copied from the body when given and never required, as both course handlers expect.
- Ratings are real numbers in [1, 10] rather than integers, because the schema only bounds a Number. Floating-point rounding of the mean is not modelled: the mean is exact.
- Ext: models `path.parse(name).ext` for names without directory separators only.
- Decimal: stands for an ObjectId's hexadecimal text. Only the facts the photo name needs are proved: the text is nonempty, all digits, and round-trips through parsing.
- getCourse `populate` adds the bootcamp's name to the response. It has no state effect and is left out.

## Findings

| source | as written | input that shows it | evidently intended | confidence | as-written member | corrected member |
|---|---|---|---|---|---|---|
| controllers/courses.js:119 | the ownership check reads `bootcamp.user`, but no `bootcamp` is bound in deleteCourse, so a ReferenceError is thrown before `course.remove()` | any request to delete an existing course, even by its owner or an admin | check `course.user` against the acting user (as updateCourse does), then remove the course | not executed; high | Devcamper.Store.DeleteCourseAsWritten | Devcamper.Store.DeleteCourse |
| controllers/courses.js:91 | the Course schema (models/Course.js:3-39) declares no `user` path, so the ORM's strict mode drops the `user` stamped at controllers/courses.js:54 when the course is created; `course.user.toString()` then throws a TypeError before the role is checked | any request to update an existing course created through addCourse, even by its creator or an admin | declare an optional `user` path on the Course schema (the Review schema declares a required one), so the check compares the stored creator | not executed; medium | Devcamper.Store.UpdateCourseAsWritten | Devcamper.Store.UpdateCourse |
