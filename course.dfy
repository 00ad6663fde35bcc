/**
 * The Course schema: its field constraints, the update of a stored course,
 * and the average tuition that the `getAverageCost` static writes onto the
 * parent bootcamp.
 */
module CourseModel {
  import opened Common
  import opened Text
  import opened Arithmetic

  datatype Skill = Beginner | Intermediate | Advanced

  function SkillName(k: Skill): string
  {
    match k
    case Beginner => "beginner"
    case Intermediate => "intermediate"
    case Advanced => "advanced"
  }

  /** The `enum` validator of `minimumSkill`. */
  function ParseSkill(s: string): (r: Option<Skill>)
    ensures r.Some? ==> SkillName(r.value) == s
    ensures forall k: Skill :: SkillName(k) == s ==> r == Some(k)
  {
    if s == "beginner" then Some(Beginner)
    else if s == "intermediate" then Some(Intermediate)
    else if s == "advanced" then Some(Advanced)
    else None
  }

  /**
   * A stored course. `tuition` is a whole amount; `user` is the creator
   * stamped by the controller, unset when the body carries none. The field
   * `scholarhipsAvailable` keeps the schema's spelling.
   */
  datatype Course = Course(
    title: string,
    description: string,
    weeks: string,
    tuition: nat,
    minimumSkill: Skill,
    scholarhipsAvailable: bool,
    bootcamp: Id,
    user: Option<Id>)

  /** A request body as it reaches `Course.create`: every field may be absent. */
  datatype CourseBody = CourseBody(
    title: Option<string>,
    description: Option<string>,
    weeks: Option<string>,
    tuition: Option<nat>,
    minimumSkill: Option<string>,
    scholarhipsAvailable: Option<bool>,
    bootcamp: Option<Id>,
    user: Option<Id>)

  /** The `required` validator of a string path: present and not empty. */
  predicate Present(s: Option<string>)
  {
    s.Some? && s.value != ""
  }

  /** What every stored course satisfies. */
  predicate ValidCourse(c: Course)
  {
    c.title != "" && Trimmed(c.title) && c.description != "" && c.weeks != ""
  }

  /**
   * Casting and validating a body: the title is trimmed before `required`
   * is checked, `minimumSkill` must name a skill, `bootcamp` is required,
   * the scholarship flag defaults to false, `user` is copied when given,
   * and any failure is one validation error.
   */
  function CourseFromBody(body: CourseBody): (r: Outcome<Course>)
    ensures r.Ok? <==> && body.title.Some? && Trim(body.title.value) != ""
                       && Present(body.description) && Present(body.weeks) && body.tuition.Some?
                       && body.minimumSkill.Some? && ParseSkill(body.minimumSkill.value).Some?
                       && body.bootcamp.Some?
    ensures r.Ok? ==> ValidCourse(r.value)
    ensures r.Ok? ==> body.title.Some? && r.value.title == Trim(body.title.value)
    ensures r.Ok? ==> body.description == Some(r.value.description) && body.weeks == Some(r.value.weeks)
    ensures r.Ok? ==> body.tuition == Some(r.value.tuition)
    ensures r.Ok? ==> body.minimumSkill == Some(SkillName(r.value.minimumSkill))
    ensures r.Ok? ==> body.bootcamp == Some(r.value.bootcamp) && r.value.user == body.user
    ensures r.Ok? ==> r.value.scholarhipsAvailable == (body.scholarhipsAvailable == Some(true))
    ensures r.Fail? ==> r.error == Invalid
  {
    var title := if body.title.Some? then Some(Trim(body.title.value)) else None;
    if Present(title) && Present(body.description) && Present(body.weeks) && body.tuition.Some?
       && body.minimumSkill.Some? && ParseSkill(body.minimumSkill.value).Some?
       && body.bootcamp.Some?
    then
      TrimIdempotent(body.title.value);
      Ok(Course(title.value, body.description.value, body.weeks.value, body.tuition.value,
                ParseSkill(body.minimumSkill.value).value,
                if body.scholarhipsAvailable.Some? then body.scholarhipsAvailable.value else false,
                body.bootcamp.value, body.user))
    else Fail(Invalid)
  }

  /** A padded title is trimmed, and a body without the flag gets `false`. */
  lemma CourseFromBodyExample()
    ensures CourseFromBody(CourseBody(Some(" Web "), Some("Full stack"), Some("8"), Some(100),
                                      Some("beginner"), None, Some(1), None))
         == Ok(Course("Web", "Full stack", "8", 100, Beginner, false, 1, None))
  {
    TrimExamples();
  }

  /** The body that spells out every field of a course. */
  function BodyOf(c: Course): CourseBody
  {
    CourseBody(Some(c.title), Some(c.description), Some(c.weeks), Some(c.tuition),
               Some(SkillName(c.minimumSkill)), Some(c.scholarhipsAvailable), Some(c.bootcamp), c.user)
  }

  /** Every valid course is accepted back from its own body unchanged. */
  lemma CourseBodyRoundTrip(c: Course)
    requires ValidCourse(c)
    ensures CourseFromBody(BodyOf(c)) == Ok(c)
  {
    TrimFixed(c.title);
    assert ParseSkill(SkillName(c.minimumSkill)) == Some(c.minimumSkill);
  }

  /** An update body (`findByIdAndUpdate(id, req.body)`): the fields it sets. */
  datatype CoursePatch = CoursePatch(
    title: Option<string>,
    description: Option<string>,
    weeks: Option<string>,
    tuition: Option<nat>,
    minimumSkill: Option<string>,
    scholarhipsAvailable: Option<bool>,
    bootcamp: Option<Id>,
    user: Option<Id>)

  /**
   * An update with `runValidators`: the validators of the paths the body
   * sets must accept their new values (the title after trimming).
   */
  function PatchCourse(c: Course, p: CoursePatch): (r: Outcome<Course>)
    ensures r.Ok? && ValidCourse(c) ==> ValidCourse(r.value)
    ensures r.Fail? ==> r.error == Invalid
    ensures p.title.Some? && Trim(p.title.value) == "" ==> r.Fail?
    ensures p.description == Some("") || p.weeks == Some("") ==> r.Fail?
    ensures r.Ok? <==> && !(p.title.Some? && Trim(p.title.value) == "")
                       && p.description != Some("") && p.weeks != Some("")
                       && (p.minimumSkill.Some? ==> ParseSkill(p.minimumSkill.value).Some?)
  {
    var title := if p.title.Some? then Trim(p.title.value) else c.title;
    var skill := if p.minimumSkill.Some? then ParseSkill(p.minimumSkill.value) else Some(c.minimumSkill);
    if (p.title.Some? && title == "") || p.description == Some("") || p.weeks == Some("") || skill.None?
    then Fail(Invalid)
    else
      TrimIdempotent(if p.title.Some? then p.title.value else c.title);
      Ok(Course(
        title,
        if p.description.Some? then p.description.value else c.description,
        if p.weeks.Some? then p.weeks.value else c.weeks,
        if p.tuition.Some? then p.tuition.value else c.tuition,
        skill.value,
        if p.scholarhipsAvailable.Some? then p.scholarhipsAvailable.value else c.scholarhipsAvailable,
        if p.bootcamp.Some? then p.bootcamp.value else c.bootcamp,
        if p.user.Some? then p.user else c.user))
  }

  /** An accepted update leaves every field the body does not set as it was. */
  lemma PatchKeepsUnsetFields(c: Course, p: CoursePatch)
    requires PatchCourse(c, p).Ok?
    ensures var d := PatchCourse(c, p).value;
      && (p.title.None? ==> d.title == c.title)
      && (p.description.None? ==> d.description == c.description)
      && (p.weeks.None? ==> d.weeks == c.weeks)
      && (p.tuition.None? ==> d.tuition == c.tuition)
      && (p.minimumSkill.None? ==> d.minimumSkill == c.minimumSkill)
      && (p.scholarhipsAvailable.None? ==> d.scholarhipsAvailable == c.scholarhipsAvailable)
      && (p.bootcamp.None? ==> d.bootcamp == c.bootcamp)
      && (p.user.None? ==> d.user == c.user)
  {
  }

  /** An accepted update stores the values the body sets. */
  lemma PatchSetsGivenFields(c: Course, p: CoursePatch)
    requires PatchCourse(c, p).Ok?
    ensures var d := PatchCourse(c, p).value;
      && (p.title.Some? ==> d.title == Trim(p.title.value))
      && (p.description.Some? ==> d.description == p.description.value)
      && (p.weeks.Some? ==> d.weeks == p.weeks.value)
      && (p.tuition.Some? ==> d.tuition == p.tuition.value)
      && (p.minimumSkill.Some? ==> p.minimumSkill == Some(SkillName(d.minimumSkill)))
      && (p.scholarhipsAvailable.Some? ==> d.scholarhipsAvailable == p.scholarhipsAvailable.value)
      && (p.bootcamp.Some? ==> d.bootcamp == p.bootcamp.value)
      && (p.user.Some? ==> d.user == p.user)
  {
  }

  // ---------------------------------------------------------------------
  // The ownership check of the course handlers
  // ---------------------------------------------------------------------

  /**
   * `course.user.toString() !== req.user.id && req.user.role !== 'admin'`:
   * reading `toString` of an unset `user` throws before the role is looked
   * at; otherwise the owner and any admin pass.
   */
  function OwnerCheck(c: Course, actor: User): (r: Outcome<()>)
    ensures r.Ok? <==> c.user.Some? && CanMutate(c.user.value, actor)
    ensures r.Fail? && c.user.None? ==> r.error == TypeError
    ensures r.Fail? && c.user.Some? ==> r.error == Unauthorized
  {
    if c.user.None? then Fail(TypeError)
    else if CanMutate(c.user.value, actor) then Ok(())
    else Fail(Unauthorized)
  }

  /** The creator that addCourse stamps on a course passes the later checks. */
  lemma CreatorPassesOwnerCheck(body: CourseBody, actor: User)
    requires CourseFromBody(body.(user := Some(actor.id))).Ok?
    ensures OwnerCheck(CourseFromBody(body.(user := Some(actor.id))).value, actor) == Ok(())
  {
  }

  /**
   * Creation under the Course schema as written: it declares no `user`
   * path, and strict mode drops undeclared paths, so the stored course has
   * no `user` whatever the body says; everything else is as above.
   */
  function CourseFromBodyAsWritten(body: CourseBody): (r: Outcome<Course>)
    ensures r.Ok? <==> CourseFromBody(body).Ok?
    ensures r.Ok? ==> r.value.user.None? && r.value == CourseFromBody(body).value.(user := None)
  {
    match CourseFromBody(body)
    case Ok(c) => Ok(c.(user := None))
    case Fail(e) => Fail(e)
  }

  /**
   * With the schema as written, the ownership check of the later handlers
   * throws for every created course, even when its creator asks.
   */
  lemma AsWrittenOwnerCheckThrows(body: CourseBody, actor: User)
    requires CourseFromBodyAsWritten(body.(user := Some(actor.id))).Ok?
    ensures OwnerCheck(CourseFromBodyAsWritten(body.(user := Some(actor.id))).value, actor) == Fail(TypeError)
  {
  }

  // ---------------------------------------------------------------------
  // The average cost aggregate
  // ---------------------------------------------------------------------

  function Parents(cs: map<Id, Course>): (p: map<Id, Id>)
    ensures p.Keys == cs.Keys
    ensures forall k :: k in cs ==> p[k] == cs[k].bootcamp
  {
    map k | k in cs :: cs[k].bootcamp
  }

  /** `$match: { bootcamp: b }` over courses whose ids are below `n`. */
  function CoursesOf(cs: map<Id, Course>, b: Id, n: nat): (r: seq<Id>)
    ensures forall i :: 0 <= i < |r| ==> r[i] < n && r[i] in cs && cs[r[i]].bootcamp == b
  {
    Matching(Parents(cs), b, n)
  }

  function TuitionSum(cs: map<Id, Course>, ks: seq<Id>): nat
    requires forall i :: 0 <= i < |ks| ==> ks[i] in cs
  {
    if ks == [] then 0 else TuitionSum(cs, ks[..|ks| - 1]) + cs[ks[|ks| - 1]].tuition
  }

  /**
   * `Math.ceil(mean / 10) * 10` for `mean == sum / count`, in integers:
   * the least multiple of ten that is at least the mean.
   */
  function RoundUpToTen(sum: nat, count: nat): nat
    requires count > 0
  {
    CeilDiv(sum, 10 * count) * 10
  }

  /** The written cost is always a multiple of ten. */
  lemma RoundUpMultipleOfTen(sum: nat, count: nat)
    requires count > 0
    ensures RoundUpToTen(sum, count) % 10 == 0
  {
  }

  /** Tenfold the count, the result is within one step of the sum: the least such multiple. */
  lemma RoundUpBrackets(sum: nat, count: nat)
    requires count > 0
    ensures var r := RoundUpToTen(sum, count);
            sum <= r * count < sum + 10 * count
  {
    var d := 10 * count;
    var q := CeilDiv(sum, d);
    CeilDivBounds(sum, d);
    assert RoundUpToTen(sum, count) * count == q * d;
  }

  /** The rounded value lies in [mean, mean + 10), mean taken exactly. */
  lemma RoundUpBracketsMean(sum: nat, count: nat)
    requires count > 0
    ensures var mean := sum as real / count as real;
            mean <= RoundUpToTen(sum, count) as real < mean + 10.0
  {
    var r := RoundUpToTen(sum, count);
    var s, c := sum as real, count as real;
    RoundUpBrackets(sum, count);
    MulCast(r, count);
    assert s <= r as real * c;
    assert r as real * c < s + 10.0 * c;
    DivideBack(s, c, r as real);
    DivideBackStrict(s, c, r as real);
  }

  lemma RoundUpExamples()
    ensures RoundUpToTen(101 + 104, 2) == 110
    ensures RoundUpToTen(100 + 200 + 300, 3) == 200
  {
    CeilDivUnique(205, 20, 11);
    CeilDivUnique(600, 30, 20);
  }

  /**
   * What the `$group` stage yields for bootcamp `b`: nothing when no course
   * matches, otherwise the mean tuition rounded up to a multiple of ten.
   */
  function AverageCost(cs: map<Id, Course>, b: Id, n: nat): (r: Option<nat>)
    ensures r.None? <==> CoursesOf(cs, b, n) == []
  {
    var ks := CoursesOf(cs, b, n);
    if ks == [] then None else Some(RoundUpToTen(TuitionSum(cs, ks), |ks|))
  }

  /**
   * The bootcamps after `getAverageCost(b)`: with no matching course
   * `obj[0]` is undefined, the error is caught and nothing is written;
   * an unknown bootcamp matches no document; otherwise only `b`'s
   * `averageCost` changes.
   */
  function CostRecomputed(bs: map<Id, Bootcamp>, cs: map<Id, Course>, b: Id, n: nat): (r: map<Id, Bootcamp>)
    ensures r.Keys == bs.Keys
    ensures forall k :: k in bs && k != b ==> r[k] == bs[k]
    ensures CoursesOf(cs, b, n) == [] ==> r == bs
    ensures b in bs ==> r[b] == bs[b].(averageCost := r[b].averageCost)
    ensures b in bs && CoursesOf(cs, b, n) != [] ==> r[b].averageCost == AverageCost(cs, b, n)
  {
    var avg := AverageCost(cs, b, n);
    if avg.None? || b !in bs then bs else bs[b := bs[b].(averageCost := avg)]
  }

  /** The written cost brackets the exact mean tuition of `b`'s courses. */
  lemma AverageCostBracketsMean(cs: map<Id, Course>, b: Id, n: nat)
    requires AverageCost(cs, b, n).Some?
    ensures var ks := CoursesOf(cs, b, n);
            var mean := TuitionSum(cs, ks) as real / |ks| as real;
            mean <= AverageCost(cs, b, n).value as real < mean + 10.0
  {
    var ks := CoursesOf(cs, b, n);
    RoundUpBracketsMean(TuitionSum(cs, ks), |ks|);
  }

  lemma {:induction false} TuitionSumAgree(cs: map<Id, Course>, ds: map<Id, Course>, ks: seq<Id>)
    requires forall i :: 0 <= i < |ks| ==> ks[i] in cs && ks[i] in ds && cs[ks[i]].tuition == ds[ks[i]].tuition
    ensures TuitionSum(cs, ks) == TuitionSum(ds, ks)
  {
    if ks != [] {
      TuitionSumAgree(cs, ds, ks[..|ks| - 1]);
    }
  }

  /** Two collections that hold the same courses of `b` (by id and tuition). */
  ghost predicate SameCoursesOf(cs: map<Id, Course>, ds: map<Id, Course>, b: Id, n: nat)
  {
    (forall k :: k < n ==> (k in cs && cs[k].bootcamp == b <==> k in ds && ds[k].bootcamp == b))
    && (forall k :: k < n && k in cs && cs[k].bootcamp == b ==> k in ds && ds[k].tuition == cs[k].tuition)
  }

  /** Only the courses whose `bootcamp` is `b` contribute to `b`'s average. */
  lemma OnlyMatchingCoursesCount(cs: map<Id, Course>, ds: map<Id, Course>, b: Id, n: nat)
    requires SameCoursesOf(cs, ds, b, n)
    ensures CoursesOf(cs, b, n) == CoursesOf(ds, b, n)
    ensures AverageCost(cs, b, n) == AverageCost(ds, b, n)
  {
    MatchingAgree(Parents(cs), Parents(ds), b, n);
    var ks := CoursesOf(cs, b, n);
    forall i | 0 <= i < |ks| ensures ks[i] in ds && cs[ks[i]].tuition == ds[ks[i]].tuition {
      assert ks[i] < n by { MatchingExact(Parents(cs), b, n); }
    }
    TuitionSumAgree(cs, ds, ks);
  }

  lemma ParentsInsert(cs: map<Id, Course>, n: nat, c: Course)
    ensures Parents(cs[n := c]) == Parents(cs)[n := c.bootcamp]
  {
  }

  lemma ParentsRemove(cs: map<Id, Course>, k: Id)
    ensures Parents(cs - {k}) == Parents(cs) - {k}
  {
  }

  lemma TuitionSumAppend(cs: map<Id, Course>, ks: seq<Id>, k: Id)
    requires k in cs && forall i :: 0 <= i < |ks| ==> ks[i] in cs
    ensures TuitionSum(cs, ks + [k]) == TuitionSum(cs, ks) + cs[k].tuition
  {
    assert (ks + [k])[..|ks|] == ks;
  }

  /** Saving `c` under the fresh id `n` appends `n` to its bootcamp's matches. */
  lemma SavedCourseMatches(cs: map<Id, Course>, n: nat, c: Course)
    requires forall k :: k in cs ==> k < n
    ensures CoursesOf(cs[n := c], c.bootcamp, n + 1) == CoursesOf(cs, c.bootcamp, n) + [n]
  {
    ParentsInsert(cs, n, c);
    MatchingInsert(Parents(cs), c.bootcamp, n, c.bootcamp);
  }

  /**
   * The post-save hook sees the new course: the average written after
   * saving `c` under the fresh id `n` is the rounded mean over the earlier
   * tuitions of its bootcamp and the new one.
   */
  lemma SavedCourseCounted(cs: map<Id, Course>, n: nat, c: Course)
    requires forall k :: k in cs ==> k < n
    ensures var ks := CoursesOf(cs, c.bootcamp, n);
            AverageCost(cs[n := c], c.bootcamp, n + 1)
            == Some(RoundUpToTen(TuitionSum(cs, ks) + c.tuition, |ks| + 1))
  {
    var ks := CoursesOf(cs, c.bootcamp, n);
    var ds, ls := cs[n := c], ks + [n];
    var sum := TuitionSum(cs, ks) + c.tuition;
    assert CoursesOf(ds, c.bootcamp, n + 1) == ls by { SavedCourseMatches(cs, n, c); }
    SavedTuitionSum(cs, n, c);
    AverageCostOver(ds, c.bootcamp, n + 1, ls, sum, |ks| + 1);
  }

  /** Unfolds the average once the matched ids are known. */
  lemma AverageCostOver(cs: map<Id, Course>, b: Id, n: nat, ks: seq<Id>, sum: nat, count: nat)
    requires CoursesOf(cs, b, n) == ks && ks != [] && |ks| == count
    requires TuitionSum(cs, ks) == sum
    ensures AverageCost(cs, b, n) == Some(RoundUpToTen(sum, count))
  {
  }

  /** Summing over the earlier matches and the fresh id adds the new tuition. */
  lemma SavedTuitionSum(cs: map<Id, Course>, n: nat, c: Course)
    requires forall k :: k in cs ==> k < n
    ensures var ks := CoursesOf(cs, c.bootcamp, n);
            TuitionSum(cs[n := c], ks + [n]) == TuitionSum(cs, ks) + c.tuition
  {
    var ks := CoursesOf(cs, c.bootcamp, n);
    var ds := cs[n := c];
    TuitionSumAgree(ds, cs, ks);
    TuitionSumAppend(ds, ks, n);
  }

  /**
   * The pre-remove hook runs while the course is still stored, so it is
   * counted; when it is the only course of its bootcamp, the written cost is
   * its own tuition rounded up, and once it is gone no course matches, so no
   * later recompute will clear that value.
   */
  lemma RemovedSoleCourseStillCounted(cs: map<Id, Course>, n: nat, k: Id)
    requires k in cs && k < n
    requires forall j :: j < n && j in cs && cs[j].bootcamp == cs[k].bootcamp ==> j == k
    ensures AverageCost(cs, cs[k].bootcamp, n) == Some(RoundUpToTen(cs[k].tuition, 1))
    ensures AverageCost(cs - {k}, cs[k].bootcamp, n) == None
  {
    SoleCourseAverage(cs, n, k);
    NoCourseAfterRemoval(cs, n, k);
  }

  lemma SoleCourseAverage(cs: map<Id, Course>, n: nat, k: Id)
    requires k in cs && k < n
    requires forall j :: j < n && j in cs && cs[j].bootcamp == cs[k].bootcamp ==> j == k
    ensures AverageCost(cs, cs[k].bootcamp, n) == Some(RoundUpToTen(cs[k].tuition, 1))
  {
    var b := cs[k].bootcamp;
    assert CoursesOf(cs, b, n) == [k] by { MatchingSingle(Parents(cs), b, n, k); }
    assert TuitionSum(cs, [k]) == cs[k].tuition by {
      TuitionSumAppend(cs, [], k);
      assert [] + [k] == [k];
    }
    AverageCostOver(cs, b, n, [k], cs[k].tuition, 1);
  }

  lemma NoCourseAfterRemoval(cs: map<Id, Course>, n: nat, k: Id)
    requires k in cs
    requires forall j :: j < n && j in cs && cs[j].bootcamp == cs[k].bootcamp ==> j == k
    ensures AverageCost(cs - {k}, cs[k].bootcamp, n) == None
  {
    ParentsRemove(cs, k);
    MatchingEmpty(Parents(cs - {k}), cs[k].bootcamp, n);
  }

  /** Two courses of bootcamp 1 with tuitions 101 and 104, and one of bootcamp 2. */
  function ExampleCourses(): map<Id, Course>
  {
    var c := Course("Web", "Full stack", "8", 101, Beginner, false, 1, Some(7));
    map[0 := c, 1 := c.(tuition := 104), 2 := c.(tuition := 999, bootcamp := 2)]
  }

  lemma ExampleCoursesMatch()
    ensures CoursesOf(ExampleCourses(), 1, 3) == [0, 1]
  {
    var cs := ExampleCourses();
    var p := Parents(cs);
    assert 0 in cs && 1 in cs && 2 in cs;
    assert p[0] == 1 && p[1] == 1 && p[2] == 2;
    assert Matching(p, 1, 1) == [0];
    assert Matching(p, 1, 2) == [0, 1];
  }

  lemma ExampleCoursesSum()
    ensures TuitionSum(ExampleCourses(), [0, 1]) == 205
  {
    var cs := ExampleCourses();
    TuitionSumAppend(cs, [], 0);
    TuitionSumAppend(cs, [0], 1);
    assert [0] + [1] == [0, 1];
  }

  /** [101, 104] for bootcamp 1 and a course of another bootcamp give 110. */
  lemma AverageCostExample()
    ensures AverageCost(ExampleCourses(), 1, 3) == Some(110)
  {
    ExampleCoursesMatch();
    ExampleCoursesSum();
    AverageCostOver(ExampleCourses(), 1, 3, [0, 1], 205, 2);
    RoundUpExamples();
  }
}
