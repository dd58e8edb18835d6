/**
 * The course catalog handlers (modules/courses/courses.go): the shorthand
 * format check, and create / get / update / delete over the courses
 * collection keyed by shorthand.
 */
module Courses {
  import opened Wrappers
  import opened Text
  import opened Store
  import opened Seqs
  import Http

  /**
   * A catalog course: the fields of the courses.go record, plus the
   * co-requisites that schedule generation reads (schedules.go:103, :119).
   * The record of courses.go declares no co-requisites, so the course
   * handlers neither store nor return them. Prerequisites and co-requisites
   * are alternative groups of course shorthands.
   */
  datatype Course = Course(
    shorthand: string,
    name: string,
    equipment: seq<string>,
    prerequisites: seq<seq<string>>,
    corequisites: seq<seq<string>>)

  /** The document InsertOne stores for a course, under its BSON field names. */
  function CourseDoc(c: Course): (r: Document)
    ensures r.Keys == {"shorthand", "name", "equipements", "prerequisites"}
  {
    map[
      "shorthand" := JStr(c.shorthand),
      "name" := JStr(c.name),
      "equipements" := StrArray(c.equipment),
      "prerequisites" := StrGroups(c.prerequisites)]
  }

  /**
   * The JSON object a handler encodes for a course: the stored fields, with
   * the equipment under its JSON name.
   */
  function CourseJson(c: Course): (r: Document)
    ensures r.Keys == {"shorthand", "name", "equipment", "prerequisites"}
    ensures r["equipment"] == CourseDoc(c)["equipements"]
    ensures forall k :: k in r && k != "equipment" ==> k in CourseDoc(c) && r[k] == CourseDoc(c)[k]
  {
    (CourseDoc(c) - {"equipements"})["equipment" := StrArray(c.equipment)]
  }

  /**
   * The Course record FindOne(...).Decode fills from a stored document:
   * fields outside the record are ignored, a missing one keeps its zero
   * value, and one of the wrong kind makes the decode fail.
   */
  function DecodeCourse(d: Document): Option<Course> {
    match (DecodeString(FieldOf(d, "shorthand")), DecodeString(FieldOf(d, "name")),
           DecodeStrings(FieldOf(d, "equipements")), DecodeGroups(FieldOf(d, "prerequisites")))
    case (Some(s), Some(n), Some(e), Some(p)) => Some(Course(s, n, e, p, []))
    case _ => None
  }

  /** A stored course decodes back to itself, without co-requisites. */
  lemma DecodeStoredCourse(c: Course)
    ensures DecodeCourse(CourseDoc(c)) == Some(c.(corequisites := []))
  {
    DecodeStrArray(c.equipment);
    DecodeStrGroups(c.prerequisites);
  }

  function ShorthandFilter(shorthand: string): Filter {
    map["shorthand" := JStr(shorthand)]
  }

  /** The regular expression \d{3}: three ASCII digits in a row, somewhere. */
  predicate HasThreeConsecutiveNumerics(s: string)
    decreases |s|
  {
    |s| >= 3 && ((IsDigit(s[0]) && IsDigit(s[1]) && IsDigit(s[2])) || HasThreeConsecutiveNumerics(s[1..]))
  }

  /** Three ASCII digits start at index i of s. */
  predicate DigitRunAt(s: string, i: int) {
    0 <= i && i + 2 < |s| && IsDigit(s[i]) && IsDigit(s[i + 1]) && IsDigit(s[i + 2])
  }

  /** The scan finds a run of three digits exactly when one starts at some index. */
  lemma {:induction false} HasThreeConsecutiveNumericsIff(s: string)
    ensures HasThreeConsecutiveNumerics(s) <==> exists i :: DigitRunAt(s, i)
    decreases |s|
  {
    if |s| >= 3 {
      HasThreeConsecutiveNumericsIff(s[1..]);
      forall i | 1 <= i ensures DigitRunAt(s, i) <==> DigitRunAt(s[1..], i - 1) {
      }
      if HasThreeConsecutiveNumerics(s[1..]) {
        var j :| DigitRunAt(s[1..], j);
        assert DigitRunAt(s, j + 1);
      }
      if !DigitRunAt(s, 0) && exists i :: DigitRunAt(s, i) {
        var i :| DigitRunAt(s, i);
        assert DigitRunAt(s[1..], i - 1);
      }
    }
  }

  /**
   * FindOne on the shorthand followed by Decode: the first course with that
   * shorthand, or None when there is none or it does not decode.
   */
  function FindCourse(docs: seq<Document>, shorthand: string): (r: Option<Course>)
    ensures r.Some? ==> FindFirst(docs, ShorthandFilter(shorthand)).Some? && r.value.shorthand == shorthand
    ensures FindFirst(docs, ShorthandFilter(shorthand)).None? ==> r.None?
  {
    match FindFirst(docs, ShorthandFilter(shorthand))
    case None => None
    case Some(i) =>
      MatchesSingle(docs[i], "shorthand", JStr(shorthand));
      DecodeCourse(docs[i])
  }

  /** The shorthand a /courses/{shorthand} path names. */
  function PathShorthand(path: string): (r: string)
    ensures HasPrefix(path, "/courses/") ==> "/courses/" + r == path
    ensures !HasPrefix(path, "/courses/") ==> r == path
  {
    TrimPrefix(path, "/courses/")
  }

  /** No two stored courses share a shorthand. */
  ghost predicate UniqueShorthands(docs: seq<Document>) {
    forall s :: CountMatching(docs, ShorthandFilter(s)) <= 1
  }

  /** CreateCourse inserts only when its shorthand is well formed and not yet stored. */
  predicate CreateAccepted(docs: seq<Document>, body: Option<Course>) {
    body.Some? && HasThreeConsecutiveNumerics(body.value.shorthand)
    && FindFirst(docs, ShorthandFilter(body.value.shorthand)).None?
  }

  /** Inserting a course whose shorthand is not stored keeps the shorthands unique. */
  lemma {:induction false} InsertKeepsUnique(docs: seq<Document>, c: Course)
    requires UniqueShorthands(docs)
    requires FindFirst(docs, ShorthandFilter(c.shorthand)).None?
    ensures UniqueShorthands(docs + [CourseDoc(c)])
  {
    CountPositiveIffFound(docs, Matching(ShorthandFilter(c.shorthand)));
    forall s ensures CountMatching(docs + [CourseDoc(c)], ShorthandFilter(s)) <= 1 {
      CountAfterAppend(docs, CourseDoc(c), Matching(ShorthandFilter(s)));
      if s != c.shorthand {
        assert CourseDoc(c)["shorthand"] != ShorthandFilter(s)["shorthand"];
      }
    }
  }

  /**
   * POST /courses: 400 for an undecodable body or a malformed shorthand, 500
   * for a shorthand already stored; otherwise the course is inserted and
   * echoed as JSON.
   */
  method CreateCourse(coll: Collection, body: Option<Course>) returns (status: nat, reply: Option<Document>)
    modifies coll
    ensures status == Http.BadRequest <==> body.None? || !HasThreeConsecutiveNumerics(body.value.shorthand)
    ensures status == Http.OK <==> CreateAccepted(old(coll.docs), body)
    ensures status == Http.OK ==> reply == Some(CourseJson(body.value))
    ensures status != Http.OK ==> reply.None?
    ensures status != Http.OK ==> coll.docs == old(coll.docs)
    ensures status == Http.OK ==> coll.docs == old(coll.docs) + [CourseDoc(body.value)]
    ensures body.Some? && HasThreeConsecutiveNumerics(body.value.shorthand)
            && FindFirst(old(coll.docs), ShorthandFilter(body.value.shorthand)).Some?
            ==> status == Http.InternalServerError
    ensures UniqueShorthands(old(coll.docs)) ==> UniqueShorthands(coll.docs)
  {
    if body.None? {
      return Http.BadRequest, None;
    }
    var course := body.value;
    if !HasThreeConsecutiveNumerics(course.shorthand) {
      return Http.BadRequest, None;
    }
    var found := FindFirst(coll.docs, ShorthandFilter(course.shorthand));
    if found.Some? {
      return Http.InternalServerError, None;
    }
    if UniqueShorthands(coll.docs) {
      InsertKeepsUnique(coll.docs, course);
    }
    coll.InsertOne(CourseDoc(course));
    return Http.OK, Some(CourseJson(course));
  }

  /**
   * GET /courses/{shorthand}: 400 for a malformed shorthand, 500 when no
   * course has it or the first one does not decode, otherwise that course
   * encoded as JSON.
   */
  function GetCourse(docs: seq<Document>, path: string): (r: Http.Reply<Document>)
    ensures !HasThreeConsecutiveNumerics(PathShorthand(path)) ==> r == Http.Reply(Http.BadRequest, None)
    ensures HasThreeConsecutiveNumerics(PathShorthand(path)) && FindCourse(docs, PathShorthand(path)).None?
            ==> r == Http.Reply(Http.InternalServerError, None)
    ensures HasThreeConsecutiveNumerics(PathShorthand(path)) && FindCourse(docs, PathShorthand(path)).Some?
            ==> r == Http.Reply(Http.OK, Some(CourseJson(FindCourse(docs, PathShorthand(path)).value)))
    ensures r.body.Some? ==> r.status == Http.OK && r.body.value["shorthand"] == JStr(PathShorthand(path))
    ensures r.body.Some? ==> "corequisites" !in r.body.value && "equipements" !in r.body.value
  {
    var shorthand := PathShorthand(path);
    if !HasThreeConsecutiveNumerics(shorthand) then Http.Reply(Http.BadRequest, None)
    else match FindCourse(docs, shorthand)
      case None => Http.Reply(Http.InternalServerError, None)
      case Some(c) => Http.Reply(Http.OK, Some(CourseJson(c)))
  }

  /** A course created successfully is what GetCourse then returns for its path. */
  lemma CreateThenGet(docs: seq<Document>, c: Course)
    requires CreateAccepted(docs, Some(c))
    ensures GetCourse(docs + [CourseDoc(c)], "/courses/" + c.shorthand) == Http.Reply(Http.OK, Some(CourseJson(c)))
  {
    assert HasPrefix("/courses/" + c.shorthand, "/courses/");
    assert PathShorthand("/courses/" + c.shorthand) == c.shorthand;
    FirstIndexAfterAppend(docs, CourseDoc(c), Matching(ShorthandFilter(c.shorthand)));
    assert (docs + [CourseDoc(c)])[|docs|] == CourseDoc(c);
    DecodeStoredCourse(c);
  }

  /**
   * PUT /courses/{shorthand}: existence first (500, also when the stored
   * course does not decode), then the body (400),
   * then the shorthand format (400); on success "$set" the body's fields on
   * the first course with that shorthand.
   */
  method UpdateCourse(coll: Collection, path: string, body: Option<Document>) returns (status: nat)
    modifies coll
    ensures FindCourse(old(coll.docs), PathShorthand(path)).None?
            ==> status == Http.InternalServerError && coll.docs == old(coll.docs)
    ensures FindCourse(old(coll.docs), PathShorthand(path)).Some?
            && (body.None? || !HasThreeConsecutiveNumerics(PathShorthand(path)))
            ==> status == Http.BadRequest && coll.docs == old(coll.docs)
    ensures FindCourse(old(coll.docs), PathShorthand(path)).Some?
            && body.Some? && HasThreeConsecutiveNumerics(PathShorthand(path))
            ==> status == Http.OK
    ensures status == Http.OK ==> body.Some? && coll.docs == SetFirst(old(coll.docs), ShorthandFilter(PathShorthand(path)), body.value)
    ensures status != Http.OK ==> coll.docs == old(coll.docs)
  {
    var shorthand := PathShorthand(path);
    if FindCourse(coll.docs, shorthand).None? {
      return Http.InternalServerError;
    }
    if body.None? {
      return Http.BadRequest;
    }
    if !HasThreeConsecutiveNumerics(shorthand) {
      return Http.BadRequest;
    }
    coll.UpdateOne(ShorthandFilter(shorthand), body.value);
    return Http.OK;
  }

  /**
   * DELETE /courses/{shorthand}: format first (400), then existence (500,
   * also when the stored course does not decode), then DeleteOne.
   */
  method DeleteCourse(coll: Collection, path: string) returns (status: nat)
    modifies coll
    ensures !HasThreeConsecutiveNumerics(PathShorthand(path)) ==> status == Http.BadRequest
    ensures HasThreeConsecutiveNumerics(PathShorthand(path)) && FindCourse(old(coll.docs), PathShorthand(path)).None?
            ==> status == Http.InternalServerError
    ensures HasThreeConsecutiveNumerics(PathShorthand(path)) && FindCourse(old(coll.docs), PathShorthand(path)).Some?
            ==> status == Http.OK
    ensures status != Http.OK ==> coll.docs == old(coll.docs)
    ensures status == Http.OK ==> coll.docs == DeleteFirst(old(coll.docs), ShorthandFilter(PathShorthand(path)))
    ensures status == Http.OK && UniqueShorthands(old(coll.docs))
            ==> CountMatching(coll.docs, ShorthandFilter(PathShorthand(path))) == 0 && UniqueShorthands(coll.docs)
  {
    var shorthand := PathShorthand(path);
    if !HasThreeConsecutiveNumerics(shorthand) {
      return Http.BadRequest;
    }
    if FindCourse(coll.docs, shorthand).None? {
      return Http.InternalServerError;
    }
    var found := FindFirst(coll.docs, ShorthandFilter(shorthand));
    ghost var before := coll.docs;
    coll.DeleteOne(ShorthandFilter(shorthand));
    forall s ensures CountMatching(coll.docs, ShorthandFilter(s)) <= CountMatching(before, ShorthandFilter(s)) {
      CountAfterRemove(before, Matching(ShorthandFilter(s)), found.value);
    }
    return Http.OK;
  }
}
