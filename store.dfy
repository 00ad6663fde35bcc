/**
 * The bootcamp and course controllers over an in-memory store, together
 * with the model-level operations they rely on: creating and removing a
 * course or a review, each with the save or remove hook that recomputes the
 * parent bootcamp's aggregate.
 */
module Devcamper {
  import opened Common
  import opened Text
  import opened CourseModel
  import opened ReviewModel

  /** An uploaded file as the upload middleware presents it. */
  datatype UploadedFile = UploadedFile(name: string, mimetype: string, size: nat)

  /** `req.files`: absent, present without a `file` field, or carrying one. */
  datatype Files = NoFiles | WithoutFileField | WithFile(file: UploadedFile)

  /** `file.size > process.env.MAX_FILE_UPLOAD`; with the variable unset the comparison is false. */
  predicate TooLarge(size: nat, limit: Option<nat>)
  {
    limit.Some? && size > limit.value
  }

  /** The stored photo name: "photo_", the bootcamp's id, the upload's extension. */
  function PhotoName(id: Id, fileName: string): (r: string)
    ensures StartsWith(r, "photo_")
    ensures |r| >= 7 + |Ext(fileName)| && r[|r| - |Ext(fileName)|..] == Ext(fileName)
  {
    "photo_" + Decimal(id) + Ext(fileName)
  }

  /** The number of leading decimal digits of `s`. */
  function LeadingDigits(s: string): (k: nat)
    ensures k <= |s|
  {
    if s != [] && '0' <= s[0] <= '9' then 1 + LeadingDigits(s[1..]) else 0
  }

  lemma {:induction false} LeadingDigitsOfSplit(x: string, e: string)
    requires AllDigits(x)
    requires e == [] || e[0] == '.'
    ensures LeadingDigits(x + e) == |x|
  {
    if x != [] {
      assert (x + e)[1..] == x[1..] + e;
      LeadingDigitsOfSplit(x[1..], e);
    }
  }

  /**
   * Two bootcamps never get the same photo name, whatever files are
   * uploaded for them, so one upload cannot overwrite another bootcamp's
   * photo; the name also determines the extension.
   */
  lemma PhotoNameInjective(a: Id, b: Id, f: string, g: string)
    requires PhotoName(a, f) == PhotoName(b, g)
    ensures a == b && Ext(f) == Ext(g)
  {
    PhotoNameParts(a, f);
    PhotoNameParts(b, g);
    DropPrefix("photo_", Decimal(a) + Ext(f), Decimal(b) + Ext(g));
    DigitsThenExtension(Decimal(a), Ext(f), Decimal(b), Ext(g));
    DecimalInjective(a, b);
  }

  lemma PhotoNameParts(id: Id, fileName: string)
    ensures PhotoName(id, fileName) == "photo_" + (Decimal(id) + Ext(fileName))
  {
  }

  lemma DropPrefix(p: string, s: string, t: string)
    requires p + s == p + t
    ensures s == t
  {
    assert s == (p + s)[|p|..];
  }

  /** Digits followed by an empty or dot-led extension split in one way only. */
  lemma DigitsThenExtension(x: string, e: string, y: string, h: string)
    requires AllDigits(x) && AllDigits(y) && x + e == y + h
    requires e == [] || e[0] == '.'
    requires h == [] || h[0] == '.'
    ensures x == y && e == h
  {
    LeadingDigitsOfSplit(x, e);
    LeadingDigitsOfSplit(y, h);
    assert x == (x + e)[..|x|];
    assert y == (y + h)[..|y|];
    assert e == (x + e)[|x|..];
    assert h == (y + h)[|y|..];
  }

  /** No two bootcamps of `bs` are owned by `u`. */
  ghost predicate OwnsAtMostOne(bs: map<Id, Bootcamp>, u: Id)
  {
    forall i, j :: i in bs && j in bs && bs[i].user == u && bs[j].user == u ==> i == j
  }

  /**
   * The store invariant over its contents: every id in use is below the next
   * fresh id, the stored courses and reviews satisfy their schemas, and the
   * unique (bootcamp, user) index holds.
   */
  ghost predicate Consistent(bs: map<Id, Bootcamp>, cs: map<Id, Course>, rs: map<Id, Review>, n: nat)
  {
    && (forall k :: k in bs ==> k < n)
    && (forall k :: k in cs ==> k < n)
    && (forall k :: k in rs ==> k < n)
    && (forall k :: k in cs ==> ValidCourse(cs[k]))
    && (forall k :: k in rs ==> ValidReview(rs[k]))
    && UniqueReviewers(rs)
  }

  lemma ConsistentWithBootcamp(bs: map<Id, Bootcamp>, cs: map<Id, Course>, rs: map<Id, Review>, n: nat, b: Bootcamp)
    requires Consistent(bs, cs, rs, n)
    ensures Consistent(bs[n := b], cs, rs, n + 1)
  {
  }

  lemma ConsistentWithCourse(bs: map<Id, Bootcamp>, cs: map<Id, Course>, rs: map<Id, Review>, n: nat, c: Course)
    requires Consistent(bs, cs, rs, n) && ValidCourse(c)
    ensures Consistent(bs, cs[n := c], rs, n + 1)
  {
  }

  lemma ConsistentWithReview(bs: map<Id, Bootcamp>, cs: map<Id, Course>, rs: map<Id, Review>, n: nat, r: Review)
    requires Consistent(bs, cs, rs, n) && ValidReview(r) && !HasReviewBy(rs, r.bootcamp, r.user)
    ensures Consistent(bs, cs, rs[n := r], n + 1)
  {
    InsertKeepsUnique(rs, n, r);
  }

  /**
   * The database: the three collections, keyed by document id, and the
   * source of fresh ids. Every id in use is below `nextId`.
   */
  class Store {
    var bootcamps: map<Id, Bootcamp>
    var courses: map<Id, Course>
    var reviews: map<Id, Review>
    var nextId: nat
    /** `process.env.MAX_FILE_UPLOAD`, if set. */
    const maxFileUpload: Option<nat>

    ghost predicate Valid()
      reads this
    {
      Consistent(bootcamps, courses, reviews, nextId)
    }

    constructor (maxFileUpload: Option<nat>)
      ensures Valid()
      ensures bootcamps == map[] && courses == map[] && reviews == map[]
      ensures this.maxFileUpload == maxFileUpload
    {
      bootcamps, courses, reviews, nextId := map[], map[], map[], 0;
      this.maxFileUpload := maxFileUpload;
    }

    // -------------------------------------------------------------------
    // Bootcamp controller
    // -------------------------------------------------------------------

    /** GET /bootcamps/:id */
    method GetBootcamp(id: Id) returns (r: Outcome<Bootcamp>)
      ensures id in bootcamps ==> r == Ok(bootcamps[id])
      ensures id !in bootcamps ==> r == Fail(NotFound)
    {
      if id !in bootcamps {
        return Fail(NotFound);
      }
      r := Ok(bootcamps[id]);
    }

    /**
     * POST /bootcamps: the owner is always the acting user, and a user who
     * is not an admin and already publishes a bootcamp is refused.
     */
    method CreateBootcamp(actor: User, body: Bootcamp) returns (r: Outcome<Id>)
      requires Valid()
      modifies this`bootcamps, this`nextId
      ensures Valid()
      ensures r.Fail? <==> !CanCreateBootcamp(actor, Publishes(old(bootcamps), actor.id))
      ensures r.Fail? ==> r.error == AlreadyPublished && bootcamps == old(bootcamps)
      ensures r.Ok? ==> r.value !in old(bootcamps)
      ensures r.Ok? ==> bootcamps == old(bootcamps)[r.value := body.(user := actor.id)]
      ensures r.Ok? ==> r.value == old(nextId) && nextId == old(nextId) + 1
      ensures r.Fail? ==> nextId == old(nextId)
      ensures r.Ok? && !IsAdmin(actor) ==> OwnsAtMostOne(bootcamps, actor.id)
    {
      var stamped := body.(user := actor.id);
      var published := Publishes(bootcamps, actor.id);
      if published && !IsAdmin(actor) {
        return Fail(AlreadyPublished);
      }
      r := Ok(nextId);
      ConsistentWithBootcamp(bootcamps, courses, reviews, nextId, stamped);
      bootcamps := bootcamps[nextId := stamped];
      nextId := nextId + 1;
    }

    /** PUT /bootcamps/:id: the body's fields replace the stored ones. */
    method UpdateBootcamp(actor: User, id: Id, patch: BootcampPatch) returns (r: Outcome<Bootcamp>)
      requires Valid()
      modifies this`bootcamps
      ensures Valid()
      ensures id !in old(bootcamps) ==> r == Fail(NotFound)
      ensures id in old(bootcamps) && !CanMutate(old(bootcamps)[id].user, actor) ==> r == Fail(Unauthorized)
      ensures r.Ok? <==> id in old(bootcamps) && CanMutate(old(bootcamps)[id].user, actor)
      ensures r.Ok? ==> r.value == Patched(old(bootcamps)[id], patch)
      ensures r.Ok? ==> bootcamps == old(bootcamps)[id := r.value]
      ensures r.Fail? ==> bootcamps == old(bootcamps)
    {
      if id !in bootcamps {
        return Fail(NotFound);
      }
      if !CanMutate(bootcamps[id].user, actor) {
        return Fail(Unauthorized);
      }
      var updated := Patched(bootcamps[id], patch);
      bootcamps := bootcamps[id := updated];
      r := Ok(updated);
    }

    /** DELETE /bootcamps/:id: removes the bootcamp only; its courses and reviews stay. */
    method DeleteBootcamp(actor: User, id: Id) returns (r: Outcome<()>)
      requires Valid()
      modifies this`bootcamps
      ensures Valid()
      ensures id !in old(bootcamps) ==> r == Fail(NotFound)
      ensures id in old(bootcamps) && !CanMutate(old(bootcamps)[id].user, actor) ==> r == Fail(Unauthorized)
      ensures r.Ok? <==> id in old(bootcamps) && CanMutate(old(bootcamps)[id].user, actor)
      ensures r.Ok? ==> bootcamps == old(bootcamps) - {id}
      ensures r.Fail? ==> bootcamps == old(bootcamps)
      ensures courses == old(courses) && reviews == old(reviews)
    {
      if id !in bootcamps {
        return Fail(NotFound);
      }
      if !CanMutate(bootcamps[id].user, actor) {
        return Fail(Unauthorized);
      }
      bootcamps := bootcamps - {id};
      r := Ok(());
    }

    /**
     * PUT /bootcamps/:id/photo. The checks run in the order of the code:
     * existence, ownership, presence of files, the `file` field, the
     * mimetype, the size, then the move into the upload directory, whose
     * success is `moved`. Only an accepted upload writes, and it writes only
     * the photo name, which is also the result.
     */
    method PhotoUpload(actor: User, id: Id, files: Files, moved: bool) returns (r: Outcome<string>)
      requires Valid()
      modifies this`bootcamps
      ensures Valid()
      ensures id !in old(bootcamps) ==> r == Fail(NotFound)
      ensures id in old(bootcamps) && !CanMutate(old(bootcamps)[id].user, actor) ==> r == Fail(Unauthorized)
      ensures id in old(bootcamps) && CanMutate(old(bootcamps)[id].user, actor) ==>
        && (files.NoFiles? ==> r == Fail(NoFileUploaded))
        && (files.WithoutFileField? ==> r == Fail(TypeError))
        && (files.WithFile? && !StartsWith(files.file.mimetype, "image") ==> r == Fail(NotAnImage))
        && (files.WithFile? && StartsWith(files.file.mimetype, "image") && TooLarge(files.file.size, maxFileUpload)
            ==> r == Fail(FileTooLarge))
        && (files.WithFile? && StartsWith(files.file.mimetype, "image") && !TooLarge(files.file.size, maxFileUpload)
            ==> r == if moved then Ok(PhotoName(id, files.file.name)) else Fail(UploadFailed))
      ensures r.Fail? ==> bootcamps == old(bootcamps)
      ensures r.Ok? ==> id in old(bootcamps) && bootcamps == old(bootcamps)[id := old(bootcamps)[id].(photo := r.value)]
    {
      if id !in bootcamps {
        return Fail(NotFound);
      }
      if !CanMutate(bootcamps[id].user, actor) {
        return Fail(Unauthorized);
      }
      if files.NoFiles? {
        return Fail(NoFileUploaded);
      }
      if files.WithoutFileField? {
        // `file.mimetype` is read from undefined
        return Fail(TypeError);
      }
      var file := files.file;
      if !StartsWith(file.mimetype, "image") {
        return Fail(NotAnImage);
      }
      if TooLarge(file.size, maxFileUpload) {
        return Fail(FileTooLarge);
      }
      var name := PhotoName(id, file.name);
      if !moved {
        return Fail(UploadFailed);
      }
      bootcamps := bootcamps[id := bootcamps[id].(photo := name)];
      r := Ok(name);
    }

    // -------------------------------------------------------------------
    // Course controller
    // -------------------------------------------------------------------

    /** GET /bootcamps/:bootcampId/courses: the courses of one bootcamp and their number. */
    method GetCourses(bootcampId: Id) returns (found: seq<(Id, Course)>, count: nat)
      requires Valid()
      ensures count == |found|
      ensures forall i :: 0 <= i < |found| ==>
        found[i].0 in courses && courses[found[i].0] == found[i].1 && found[i].1.bootcamp == bootcampId
      ensures forall k :: k in courses && courses[k].bootcamp == bootcampId ==>
        exists i :: 0 <= i < |found| && found[i].0 == k
      ensures forall i, j :: 0 <= i < j < |found| ==> found[i].0 < found[j].0
    {
      var cs := courses;
      var ks := CoursesOf(cs, bootcampId, nextId);
      MatchingExact(Parents(cs), bootcampId, nextId);
      found := seq(|ks|, i requires 0 <= i < |ks| => (ks[i], cs[ks[i]]));
      count := |found|;
      forall k | k in cs && cs[k].bootcamp == bootcampId
        ensures exists i :: 0 <= i < |found| && found[i].0 == k
      {
        assert k in ks;
        var i :| 0 <= i < |ks| && ks[i] == k;
        assert found[i].0 == k;
      }
    }

    /** GET /courses/:id */
    method GetCourse(id: Id) returns (r: Outcome<Course>)
      ensures id in courses ==> r == Ok(courses[id])
      ensures id !in courses ==> r == Fail(NotFound)
    {
      if id !in courses {
        return Fail(NotFound);
      }
      r := Ok(courses[id]);
    }

    /**
     * POST /bootcamps/:bootcampId/courses: the body is stamped with the
     * parent bootcamp and the acting user, who must own that bootcamp or be
     * an admin; the course is then created and the post-save hook
     * recomputes the bootcamp's average cost with it included.
     */
    method AddCourse(actor: User, bootcampId: Id, body: CourseBody) returns (r: Outcome<Id>)
      requires Valid()
      modifies this`courses, this`bootcamps, this`nextId
      ensures Valid()
      ensures bootcampId !in old(bootcamps) ==> r == Fail(NotFound)
      ensures bootcampId in old(bootcamps) && !CanMutate(old(bootcamps)[bootcampId].user, actor) ==> r == Fail(Unauthorized)
      ensures r.Ok? <==> && bootcampId in old(bootcamps) && CanMutate(old(bootcamps)[bootcampId].user, actor)
                         && CourseFromBody(body.(bootcamp := Some(bootcampId), user := Some(actor.id))).Ok?
      ensures && bootcampId in old(bootcamps) && CanMutate(old(bootcamps)[bootcampId].user, actor)
              && CourseFromBody(body.(bootcamp := Some(bootcampId), user := Some(actor.id))).Fail?
              ==> r == Fail(Invalid)
      ensures r.Fail? ==> courses == old(courses) && bootcamps == old(bootcamps)
      ensures r.Fail? ==> nextId == old(nextId)
      ensures r.Ok? ==> r.value == old(nextId) && nextId == old(nextId) + 1
      ensures r.Ok? ==> r.value !in old(courses) && r.value in courses
      ensures r.Ok? ==> courses == old(courses)[r.value := courses[r.value]]
      ensures r.Ok? ==> courses[r.value].bootcamp == bootcampId && courses[r.value].user == Some(actor.id)
      ensures r.Ok? ==> Ok(courses[r.value]) == CourseFromBody(body.(bootcamp := Some(bootcampId), user := Some(actor.id)))
      ensures r.Ok? ==> bootcamps == CostRecomputed(old(bootcamps), courses, bootcampId, nextId)
      ensures r.Ok? ==> bootcamps[bootcampId].averageCost == AverageCost(courses, bootcampId, nextId)
    {
      var stamped := body.(bootcamp := Some(bootcampId), user := Some(actor.id));
      if bootcampId !in bootcamps {
        return Fail(NotFound);
      }
      if !CanMutate(bootcamps[bootcampId].user, actor) {
        return Fail(Unauthorized);
      }
      r := CreateCourse(stamped);
      if r.Ok? {
        assert r.value in CoursesOf(courses, bootcampId, nextId) by {
          MatchingExact(Parents(courses), bootcampId, nextId);
        }
      }
    }

    /**
     * PUT /courses/:id as written: the Course schema declares no `user`, so
     * a stored course carries none (`CourseFromBodyAsWritten`), and reading
     * `course.user.toString()` throws for every existing course, before
     * the update, whoever asks.
     */
    method UpdateCourseAsWritten(actor: User, id: Id, patch: CoursePatch) returns (r: Outcome<Course>)
      ensures id !in courses ==> r == Fail(NotFound)
      ensures id in courses ==> r == Fail(TypeError)
    {
      if id !in courses {
        return Fail(NotFound);
      }
      var stored := courses[id].(user := None);
      var allowed := OwnerCheck(stored, actor);
      if allowed.Fail? {
        return Fail(allowed.error);
      }
      r := PatchCourse(stored, patch);
    }

    /**
     * PUT /courses/:id as intended, with `user` stored on the course:
     * authorized against the course's own `user` (an unset one throws); the
     * update changes only that course and, not being a save, triggers no
     * recompute of the average cost.
     */
    method UpdateCourse(actor: User, id: Id, patch: CoursePatch) returns (r: Outcome<Course>)
      requires Valid()
      modifies this`courses
      ensures Valid()
      ensures id !in old(courses) ==> r == Fail(NotFound)
      ensures id in old(courses) && old(courses)[id].user.None? ==> r == Fail(TypeError)
      ensures id in old(courses) && old(courses)[id].user.Some? && !CanMutate(old(courses)[id].user.value, actor)
              ==> r == Fail(Unauthorized)
      ensures id in old(courses) && OwnerCheck(old(courses)[id], actor).Ok? ==> r == PatchCourse(old(courses)[id], patch)
      ensures r.Ok? ==> courses == old(courses)[id := r.value]
      ensures r.Fail? ==> courses == old(courses)
      ensures bootcamps == old(bootcamps)
    {
      if id !in courses {
        return Fail(NotFound);
      }
      var allowed := OwnerCheck(courses[id], actor);
      if allowed.Fail? {
        return Fail(allowed.error);
      }
      r := PatchCourse(courses[id], patch);
      if r.Ok? {
        courses := courses[id := r.value];
      }
    }

    /**
     * DELETE /courses/:id as written: the ownership check reads `bootcamp`,
     * which is not bound in that handler, so every existing course makes it
     * throw before `remove`, whoever asks.
     */
    method DeleteCourseAsWritten(actor: User, id: Id) returns (r: Outcome<()>)
      ensures id !in courses ==> r == Fail(NotFound)
      ensures id in courses ==> r == Fail(ReferenceError)
    {
      if id !in courses {
        return Fail(NotFound);
      }
      r := Fail(ReferenceError);
    }

    /**
     * DELETE /courses/:id as intended: authorized against the course's own
     * `user`, then removed, with the pre-remove hook recomputing the average
     * cost while the course is still counted.
     */
    method DeleteCourse(actor: User, id: Id) returns (r: Outcome<()>)
      requires Valid()
      modifies this`courses, this`bootcamps
      ensures Valid()
      ensures id !in old(courses) ==> r == Fail(NotFound)
      ensures id in old(courses) && old(courses)[id].user.None? ==> r == Fail(TypeError)
      ensures id in old(courses) && old(courses)[id].user.Some? && !CanMutate(old(courses)[id].user.value, actor)
              ==> r == Fail(Unauthorized)
      ensures r.Ok? <==> id in old(courses) && OwnerCheck(old(courses)[id], actor).Ok?
      ensures r.Fail? ==> courses == old(courses) && bootcamps == old(bootcamps)
      ensures r.Ok? ==> courses == old(courses) - {id}
      ensures r.Ok? ==> bootcamps == CostRecomputed(old(bootcamps), old(courses), old(courses)[id].bootcamp, nextId)
      ensures reviews == old(reviews)
    {
      if id !in courses {
        return Fail(NotFound);
      }
      var allowed := OwnerCheck(courses[id], actor);
      if allowed.Fail? {
        return Fail(allowed.error);
      }
      RemoveCourse(id);
      r := Ok(());
    }

    // -------------------------------------------------------------------
    // Course model: create, remove and the average cost
    // -------------------------------------------------------------------

    /** `getAverageCost(b)`: aggregate, then write `averageCost` on the bootcamp. */
    method GetAverageCost(b: Id)
      requires Valid()
      modifies this`bootcamps
      ensures Valid()
      ensures bootcamps == CostRecomputed(old(bootcamps), courses, b, nextId)
    {
      var obj := AverageCost(courses, b, nextId);
      if obj.None? {
        // `obj[0]` is undefined; the TypeError is caught and logged
        return;
      }
      if b in bootcamps {
        bootcamps := bootcamps[b := bootcamps[b].(averageCost := obj)];
      }
      assert bootcamps == CostRecomputed(old(bootcamps), courses, b, nextId);
    }

    /** `Course.create(body)`: validate, insert, then the post-save hook. */
    method CreateCourse(body: CourseBody) returns (r: Outcome<Id>)
      requires Valid()
      modifies this`courses, this`bootcamps, this`nextId
      ensures Valid()
      ensures r.Fail? <==> CourseFromBody(body).Fail?
      ensures r.Fail? ==> r.error == Invalid && courses == old(courses) && bootcamps == old(bootcamps) && nextId == old(nextId)
      ensures r.Ok? ==> r.value == old(nextId) && nextId == old(nextId) + 1
      ensures r.Ok? ==> courses == old(courses)[r.value := CourseFromBody(body).value]
      ensures r.Ok? ==> bootcamps == CostRecomputed(old(bootcamps), courses, courses[r.value].bootcamp, nextId)
    {
      var c := CourseFromBody(body);
      if c.Fail? {
        return Fail(c.error);
      }
      var id := nextId;
      ConsistentWithCourse(bootcamps, courses, reviews, id, c.value);
      courses := courses[id := c.value];
      nextId := nextId + 1;
      var saved := courses;
      GetAverageCost(c.value.bootcamp);
      assert courses == saved && nextId == id + 1;
      r := Ok(id);
    }

    /** `course.remove()`: the pre-remove hook, then the delete. */
    method RemoveCourse(id: Id)
      requires Valid() && id in courses
      modifies this`courses, this`bootcamps
      ensures Valid()
      ensures courses == old(courses) - {id}
      ensures bootcamps == CostRecomputed(old(bootcamps), old(courses), old(courses)[id].bootcamp, nextId)
    {
      GetAverageCost(courses[id].bootcamp);
      courses := courses - {id};
    }

    // -------------------------------------------------------------------
    // Review model: create, remove and the average rating
    // -------------------------------------------------------------------

    /** `getAverageRating(b)`: aggregate, then write `averageRating` on the bootcamp. */
    method GetAverageRating(b: Id)
      requires Valid()
      modifies this`bootcamps
      ensures Valid()
      ensures bootcamps == RatingRecomputed(old(bootcamps), reviews, b, nextId)
    {
      var obj := AverageRating(reviews, b, nextId);
      if obj.None? {
        // `obj[0]` is undefined; the TypeError is caught and logged
        return;
      }
      if b in bootcamps {
        bootcamps := bootcamps[b := bootcamps[b].(averageRating := obj)];
      }
      assert bootcamps == RatingRecomputed(old(bootcamps), reviews, b, nextId);
    }

    /**
     * `Review.create(body)`: validate and insert, then the post-save hook
     * recomputes the bootcamp's rating with the new review included.
     */
    method CreateReview(body: ReviewBody) returns (r: Outcome<Id>)
      requires Valid()
      modifies this`reviews, this`bootcamps, this`nextId
      ensures Valid()
      ensures ReviewFromBody(body).Fail? ==> r == Fail(Invalid)
      ensures ReviewFromBody(body).Ok? && HasReviewBy(old(reviews), body.bootcamp.value, body.user.value)
              ==> r == Fail(DuplicateKey)
      ensures r.Fail? ==> reviews == old(reviews) && bootcamps == old(bootcamps) && nextId == old(nextId)
      ensures r.Ok? <==> ReviewFromBody(body).Ok? && !HasReviewBy(old(reviews), body.bootcamp.value, body.user.value)
      ensures r.Ok? ==> r.value == old(nextId) && nextId == old(nextId) + 1
      ensures r.Ok? ==> reviews == old(reviews)[r.value := ReviewFromBody(body).value]
      ensures r.Ok? ==> bootcamps == RatingRecomputed(old(bootcamps), reviews, body.bootcamp.value, nextId)
    {
      r := InsertReview(body);
      if r.Ok? {
        GetAverageRating(body.bootcamp.value);
      }
    }

    /**
     * The validation and the insert of `Review.create`, before its hook: the
     * unique (bootcamp, user) index refuses a second review by the same
     * user.
     */
    method InsertReview(body: ReviewBody) returns (r: Outcome<Id>)
      requires Valid()
      modifies this`reviews, this`nextId
      ensures Valid()
      ensures ReviewFromBody(body).Fail? ==> r == Fail(Invalid)
      ensures ReviewFromBody(body).Ok? && HasReviewBy(old(reviews), body.bootcamp.value, body.user.value)
              ==> r == Fail(DuplicateKey)
      ensures r.Fail? ==> reviews == old(reviews) && nextId == old(nextId)
      ensures r.Ok? <==> ReviewFromBody(body).Ok? && !HasReviewBy(old(reviews), body.bootcamp.value, body.user.value)
      ensures r.Ok? ==> r.value == old(nextId) && r.value !in old(reviews) && nextId == old(nextId) + 1
      ensures r.Ok? ==> reviews == old(reviews)[r.value := ReviewFromBody(body).value]
    {
      var v := ReviewFromBody(body);
      if v.Fail? {
        return Fail(v.error);
      }
      var review := v.value;
      if HasReviewBy(reviews, review.bootcamp, review.user) {
        return Fail(DuplicateKey);
      }
      var id := nextId;
      ConsistentWithReview(bootcamps, courses, reviews, id, review);
      reviews := reviews[id := review];
      nextId := nextId + 1;
      r := Ok(id);
    }

    /** `review.remove()`: the pre-remove hook, then the delete. */
    method RemoveReview(id: Id)
      requires Valid() && id in reviews
      modifies this`reviews, this`bootcamps
      ensures Valid()
      ensures reviews == old(reviews) - {id}
      ensures bootcamps == RatingRecomputed(old(bootcamps), old(reviews), old(reviews)[id].bootcamp, nextId)
    {
      GetAverageRating(reviews[id].bootcamp);
      RemoveKeepsUnique(reviews, id);
      reviews := reviews - {id};
    }
  }
}
