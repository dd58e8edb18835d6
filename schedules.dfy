/**
 * The scheduling core: the generation pipeline that turns a (year, term)
 * request into a draft timetable, and the draft -> approved lifecycle.
 *
 * The two schedule stores (draft_schedules and previous_schedules) are the
 * fields of a ScheduleStore object.  The catalog queries, the replies of the
 * capacity-estimation service ("Algs 2") and of the timetable-generation
 * service ("Algs 1"), and whether a store write succeeds are parameters of
 * the handlers.
 */
module Schedules {
  import opened Wrappers
  import opened Seqs
  import opened Text
  import Http
  import Courses
  import Users
  import Classrooms

  /** One scheduled section of a course. */
  datatype Class = Class(
    num: string,
    building: string,
    room: string,
    professor: string,
    days: seq<string>,
    numSeats: int,
    numEnroll: int,
    startTime: string,
    endTime: string)

  datatype CourseOffering = CourseOffering(course: string, sections: seq<Class>)

  datatype Term = Term(term: string, courses: seq<CourseOffering>)

  /** A stored timetable: a year and its terms. */
  datatype Schedule = Schedule(year: int, terms: seq<Term>)

  /** The body the generation service answers with. */
  datatype GeneratedSchedule = GeneratedSchedule(schedule: seq<CourseOffering>)

  /** The body of an approval request. */
  datatype ApprovalRequest = ApprovalRequest(year: int, term: string)

  datatype Estimate = Estimate(course: string, estimate: int)

  /** The body the estimation service answers with. */
  datatype Capacity = Capacity(estimates: seq<Estimate>)

  /** A course as the generation service receives it. */
  datatype CourseWithCapacity = CourseWithCapacity(
    course: string,
    peng: bool,
    prerequisites: seq<seq<string>>,
    corequisites: seq<seq<string>>,
    preEnroll: int,
    minEnroll: int,
    hours: (int, int, int))

  /** What is sent to the estimation service. */
  datatype EstimationRequest = EstimationRequest(year: string, term: string, courses: seq<Courses.Course>)

  /** What is sent to the generation service. */
  datatype GenerationRequest = GenerationRequest(
    year: string,
    term: string,
    professors: seq<Users.User>,
    courses: seq<CourseWithCapacity>,
    classrooms: seq<Classrooms.Classroom>)

  /**
   * The reply of an HTTP service: none at all when it cannot be reached,
   * otherwise a status code and the body when it decodes.
   */
  datatype ServiceReply<T> = Unreachable | Answered(code: nat, body: Option<T>)

  /** A partial body for UpdateSchedule: the Schedule fields it sets. */
  datatype SchedulePatch = SchedulePatch(year: Option<int>, terms: Option<seq<Term>>)

  const MinEnroll: int := 5
  const DefaultHours: (int, int, int) := (3, 0, 0)
  /** Fallback enrolment draws lie in [FallbackLow, FallbackHigh). */
  const FallbackLow: int := 80
  const FallbackHigh: int := 120

  /* ---------------------------------------------------------------- terms */

  /** A term is accepted when its lower-case form is fall, spring or summer. */
  predicate IsValidTerm(term: string)
    ensures IsValidTerm(term) ==> |term| == 4 || |term| == 6
  {
    var t := ToLower(term);
    t == "fall" || t == "spring" || t == "summer"
  }

  /** Lowering twice is lowering once, so the term check ignores case entirely. */
  lemma ValidTermIgnoresCase(term: string)
    ensures ToLower(ToLower(term)) == ToLower(term)
    ensures IsValidTerm(term) <==> IsValidTerm(ToLower(term))
  {
    assert forall i :: 0 <= i < |term| ==> LowerRune(LowerRune(term[i])) == LowerRune(term[i]);
  }

  /** Accepted and refused spellings. */
  lemma ValidTermExamples()
    ensures IsValidTerm("Fall") && IsValidTerm("SUMMER") && IsValidTerm("spring")
    ensures IsValidTerm("SPR\U{0130}NG")
    ensures !IsValidTerm("winter") && !IsValidTerm("fall ") && !IsValidTerm("")
  {
    assert ToLower("Fall") == "fall";
    assert ToLower("SUMMER") == "summer";
    assert ToLower("spring") == "spring";
    assert ToLower("SPR\U{0130}NG") == "spring";
    assert |ToLower("fall ")| == 5;
    assert ToLower("winter")[0] == 'w';
  }

  /* ---------------------------------------------------- capacity resolution */

  /** The capacity-augmented form of a course with the given expected enrolment. */
  function WithCapacity(c: Courses.Course, preEnroll: int): (r: CourseWithCapacity)
    ensures r.course == c.shorthand && !r.peng
    ensures r.prerequisites == c.prerequisites && r.corequisites == c.corequisites
    ensures r.preEnroll == preEnroll && r.minEnroll == MinEnroll && r.hours == DefaultHours
  {
    CourseWithCapacity(c.shorthand, false, c.prerequisites, c.corequisites, preEnroll, MinEnroll, DefaultHours)
  }

  function ForCourse(name: string): Estimate -> bool {
    (e: Estimate) => e.course == name
  }

  /** The first estimate listed for the course called `name`. */
  function FirstEstimate(estimates: seq<Estimate>, name: string): (r: Option<nat>)
    ensures r.Some? ==> r.value < |estimates| && estimates[r.value].course == name
    ensures r.Some? ==> forall j :: 0 <= j < r.value ==> estimates[j].course != name
    ensures r.None? ==> forall j :: 0 <= j < |estimates| ==> estimates[j].course != name
  {
    FirstIndex(estimates, ForCourse(name))
  }

  /** The course with its first estimate, or nothing when no estimate names it. */
  function EstimatedCapacity(c: Courses.Course, estimates: seq<Estimate>): seq<CourseWithCapacity> {
    match FirstEstimate(estimates, c.shorthand)
    case None => []
    case Some(j) => [WithCapacity(c, estimates[j].estimate)]
  }

  /** The courses sent for generation when the estimation service listed estimates. */
  function EstimatedCourses(cs: seq<Courses.Course>, estimates: seq<Estimate>): seq<CourseWithCapacity> {
    if |cs| == 0 then []
    else EstimatedCourses(cs[..|cs| - 1], estimates) + EstimatedCapacity(cs[|cs| - 1], estimates)
  }

  /**
   * The courses sent for generation when no estimate is listed: every course,
   * in order, each with an enrolment drawn from [FallbackLow, FallbackHigh).
   */
  predicate FallbackCourses(cs: seq<Courses.Course>, out: seq<CourseWithCapacity>) {
    && |out| == |cs|
    && forall k :: 0 <= k < |out| ==>
         out[k] == WithCapacity(cs[k], out[k].preEnroll) && FallbackLow <= out[k].preEnroll < FallbackHigh
  }

  /**
   * createCoursesArray: pairs each course of the term with its enrolment
   * estimate; with no estimates at all every course gets a random one.
   */
  method CreateCoursesArray(termCourses: seq<Courses.Course>, predicted: Capacity)
    returns (updated: seq<CourseWithCapacity>)
    ensures predicted.estimates == [] ==> FallbackCourses(termCourses, updated)
    ensures predicted.estimates != [] ==> updated == EstimatedCourses(termCourses, predicted.estimates)
  {
    var estimates := predicted.estimates;
    updated := [];
    var i := 0;
    while i < |termCourses|
      invariant 0 <= i <= |termCourses|
      invariant estimates == [] ==> FallbackCourses(termCourses[..i], updated)
      invariant estimates != [] ==> updated == EstimatedCourses(termCourses[..i], estimates)
    {
      var course := termCourses[i];
      assert termCourses[..i + 1][..i] == termCourses[..i];
      if |estimates| == 0 {
        // rand.Intn(120-80) + 80
        var draw :| 0 <= draw < FallbackHigh - FallbackLow;
        updated := updated + [WithCapacity(course, draw + FallbackLow)];
      } else {
        ghost var before := updated;
        var j := 0;
        while j < |estimates|
          invariant 0 <= j <= |estimates|
          invariant updated == before
          invariant forall k :: 0 <= k < j ==> estimates[k].course != course.shorthand
        {
          if course.shorthand == estimates[j].course {
            FirstIndexIs(estimates, ForCourse(course.shorthand), j);
            updated := updated + [WithCapacity(course, estimates[j].estimate)];
            break;
          }
          j := j + 1;
        }
        assert updated == before + EstimatedCapacity(course, estimates);
      }
      i := i + 1;
    }
    assert termCourses[..i] == termCourses;
  }

  /** The positions of the term's courses that have an estimate, in increasing order. */
  function PickedIndices(cs: seq<Courses.Course>, estimates: seq<Estimate>): seq<nat> {
    if |cs| == 0 then []
    else
      var n := |cs| - 1;
      PickedIndices(cs[..n], estimates) + (if FirstEstimate(estimates, cs[n].shorthand).Some? then [n] else [])
  }

  /** The kept courses are as many as the picked positions, which are increasing positions of the input. */
  lemma {:induction false} PickedShape(cs: seq<Courses.Course>, estimates: seq<Estimate>)
    ensures |PickedIndices(cs, estimates)| == |EstimatedCourses(cs, estimates)|
    ensures forall k :: 0 <= k < |PickedIndices(cs, estimates)| ==> PickedIndices(cs, estimates)[k] < |cs|
    ensures forall k, l :: 0 <= k < l < |PickedIndices(cs, estimates)| ==>
              PickedIndices(cs, estimates)[k] < PickedIndices(cs, estimates)[l]
  {
    if |cs| > 0 {
      PickedShape(cs[..|cs| - 1], estimates);
    }
  }

  /** Capacity resolution never sends more courses than the term has. */
  lemma EstimatedCoursesAtMost(cs: seq<Courses.Course>, estimates: seq<Estimate>)
    ensures |EstimatedCourses(cs, estimates)| <= |cs|
  {
    PickedShape(cs, estimates);
    PickedAtMost(PickedIndices(cs, estimates), |cs|);
  }

  /** The k-th kept course is the picked course with its first estimate: resolution never invents or reorders courses. */
  lemma {:induction false} PickedCourses(cs: seq<Courses.Course>, estimates: seq<Estimate>)
    ensures |PickedIndices(cs, estimates)| == |EstimatedCourses(cs, estimates)|
    ensures forall k :: 0 <= k < |PickedIndices(cs, estimates)| ==>
              PickedIndices(cs, estimates)[k] < |cs|
              && EstimatedCourses(cs, estimates)[k] in EstimatedCapacity(cs[PickedIndices(cs, estimates)[k]], estimates)
  {
    PickedShape(cs, estimates);
    if |cs| > 0 {
      var n := |cs| - 1;
      var front := cs[..n];
      PickedCourses(front, estimates);
      var sub := PickedIndices(front, estimates);
      var init := EstimatedCourses(front, estimates);
      var all := EstimatedCourses(cs, estimates);
      forall k | 0 <= k < |sub|
        ensures all[k] in EstimatedCapacity(cs[sub[k]], estimates)
      {
        assert all[k] == init[k] && front[sub[k]] == cs[sub[k]];
      }
    }
  }

  /** A position is picked exactly when its course has an estimate. */
  lemma {:induction false} PickedExactly(cs: seq<Courses.Course>, estimates: seq<Estimate>)
    ensures forall i :: 0 <= i < |cs| ==>
              (FirstEstimate(estimates, cs[i].shorthand).Some? <==> i in PickedIndices(cs, estimates))
  {
    if |cs| > 0 {
      var n := |cs| - 1;
      var front := cs[..n];
      PickedExactly(front, estimates);
      PickedShape(front, estimates);
      forall i | 0 <= i < |cs|
        ensures FirstEstimate(estimates, cs[i].shorthand).Some? <==> i in PickedIndices(cs, estimates)
      {
        if i < n {
          assert front[i] == cs[i];
        }
      }
    }
  }

  /** When every course has an estimate, all of them are kept, in order, with their first estimate. */
  lemma {:induction false} AllEstimatedKeepsEveryCourse(cs: seq<Courses.Course>, estimates: seq<Estimate>)
    requires forall i :: 0 <= i < |cs| ==> FirstEstimate(estimates, cs[i].shorthand).Some?
    ensures |EstimatedCourses(cs, estimates)| == |cs|
    ensures forall i :: 0 <= i < |cs| ==>
              EstimatedCourses(cs, estimates)[i]
              == WithCapacity(cs[i], estimates[FirstEstimate(estimates, cs[i].shorthand).value].estimate)
  {
    if |cs| > 0 {
      var n := |cs| - 1;
      AllEstimatedKeepsEveryCourse(cs[..n], estimates);
      assert forall i :: 0 <= i < n ==> cs[..n][i] == cs[i];
    }
  }

  /** A course the non-empty estimate list does not name is left out of the generation request. */
  lemma UnestimatedCourseIsDropped(cs: seq<Courses.Course>, estimates: seq<Estimate>, i: nat)
    requires i < |cs| && FirstEstimate(estimates, cs[i].shorthand).None?
    ensures |EstimatedCourses(cs, estimates)| < |cs|
  {
    PickedShape(cs, estimates);
    PickedExactly(cs, estimates);
    PickedFewer(PickedIndices(cs, estimates), |cs|, i);
  }

  /** A strictly increasing list of naturals below `n` that misses one of them is shorter than `n`. */
  lemma {:induction false} PickedFewer(picked: seq<nat>, n: nat, missing: nat)
    requires missing < n && missing !in picked
    requires forall k :: 0 <= k < |picked| ==> picked[k] < n
    requires forall k, l :: 0 <= k < l < |picked| ==> picked[k] < picked[l]
    ensures |picked| < n
  {
    if |picked| > 0 {
      var m := picked[|picked| - 1];
      var front := picked[..|picked| - 1];
      assert forall k :: 0 <= k < |front| ==> front[k] == picked[k] && front[k] < m;
      if m < missing {
        PickedAtMost(front, m);
      } else {
        assert missing != m;
        assert missing !in front;
        PickedFewer(front, m, missing);
      }
    }
  }

  /** A strictly increasing list of naturals below `n` has at most `n` elements. */
  lemma {:induction false} PickedAtMost(picked: seq<nat>, n: nat)
    requires forall k :: 0 <= k < |picked| ==> picked[k] < n
    requires forall k, l :: 0 <= k < l < |picked| ==> picked[k] < picked[l]
    ensures |picked| <= n
  {
    if |picked| > 0 {
      var m := picked[|picked| - 1];
      var front := picked[..|picked| - 1];
      assert forall k :: 0 <= k < |front| ==> front[k] == picked[k] && front[k] < m;
      PickedAtMost(front, m);
    }
  }

  /* ------------------------------------------------------ service replies */

  /** What the handler proceeds with after calling a service, as the code is written. */
  datatype Handling<T> = Proceed(value: T) | Abort | Crash

  /**
   * The estimates the pipeline continues with: those of a decoded 200 reply,
   * and none (so the fallback draws) for any other reply, including no reply.
   */
  function EstimatesFrom(reply: ServiceReply<Capacity>): (r: seq<Estimate>)
    ensures reply.Answered? && reply.code == Http.OK && reply.body.Some? ==> r == reply.body.value.estimates
    ensures !(reply.Answered? && reply.code == Http.OK && reply.body.Some?) ==> r == []
  {
    if reply.Answered? && reply.code == Http.OK && reply.body.Some? then reply.body.value.estimates else []
  }

  /**
   * The estimation step as written: the status code is read from the reply
   * without checking that there is one, so an unreachable service crashes the
   * handler instead of falling back.
   */
  function EstimatesAsWritten(reply: ServiceReply<Capacity>): (r: Handling<seq<Estimate>>)
    ensures r.Crash? <==> reply.Unreachable?
    ensures !r.Abort?
    ensures r.Proceed? && r.value != [] ==> reply.code == Http.OK && reply.body == Some(Capacity(r.value))
  {
    match reply
    case Unreachable => Crash
    case Answered(code, body) =>
      if code == Http.OK && body.Some? then Proceed(body.value.estimates) else Proceed([])
  }

  /** The two estimation steps differ only on an unreachable service. */
  lemma EstimatesAsWrittenDiffers(reply: ServiceReply<Capacity>)
    ensures EstimatesAsWritten(reply).Crash? <==> reply.Unreachable?
    ensures reply.Answered? ==> EstimatesAsWritten(reply) == Proceed(EstimatesFrom(reply))
    ensures EstimatesAsWritten(Unreachable).Crash? && EstimatesFrom(Unreachable) == []
  {
  }

  /** The generated timetable: present only for a decoded 200 reply. */
  function GeneratedFrom(reply: ServiceReply<GeneratedSchedule>): (r: Option<GeneratedSchedule>)
    ensures r.Some? <==> reply.Answered? && reply.code == Http.OK && reply.body.Some?
    ensures r.Some? ==> r == reply.body
  {
    if reply.Answered? && reply.code == Http.OK then reply.body else None
  }

  /**
   * The generation step as written: no reply crashes on the status code, and
   * a non-200 reply crashes building its error from the nil result of
   * closing the body; only an undecodable 200 reply is reported as a 500.
   */
  function GeneratedAsWritten(reply: ServiceReply<GeneratedSchedule>): (r: Handling<GeneratedSchedule>)
    ensures r.Crash? <==> reply.Unreachable? || reply.code != Http.OK
    ensures r.Abort? <==> reply == Answered(Http.OK, None)
    ensures r.Proceed? ==> reply == Answered(Http.OK, Some(r.value))
  {
    match reply
    case Unreachable => Crash
    case Answered(code, body) =>
      if code != Http.OK then Crash
      else if body.None? then Abort
      else Proceed(body.value)
  }

  /** The two generation steps proceed with the same timetable; they differ in crashing where a 500 is meant. */
  lemma GeneratedAsWrittenDiffers(reply: ServiceReply<GeneratedSchedule>)
    ensures GeneratedAsWritten(reply).Crash? <==> reply.Unreachable? || reply.code != Http.OK
    ensures GeneratedAsWritten(reply).Proceed? <==> GeneratedFrom(reply).Some?
    ensures GeneratedAsWritten(reply).Proceed? ==> GeneratedAsWritten(reply).value == GeneratedFrom(reply).value
    ensures GeneratedAsWritten(Answered(Http.InternalServerError, None)).Crash?
  {
  }

  /* ----------------------------------------------------- schedule shaping */

  /** createScheduleJSON: the timetable becomes the single term of a schedule. */
  function CreateScheduleJSON(year: int, term: string, generated: GeneratedSchedule): (s: Schedule)
    ensures s.year == year && |s.terms| == 1
    ensures s.terms[0].courses == generated.schedule
    ensures forall y, t :: ScheduleMatches(s, y, t) <==> y == year && t == term
  {
    var s := Schedule(year, [Term(term, generated.schedule)]);
    assert ScheduleMatches(s, year, term) by { assert s.terms[0].term == term; }
    s
  }

  /** Term names are matched exactly: a draft generated as "Fall" is not found as "fall". */
  lemma TermKeyIsCaseSensitive(year: int, generated: GeneratedSchedule)
    ensures ScheduleMatches(CreateScheduleJSON(year, "Fall", generated), year, "Fall")
    ensures !ScheduleMatches(CreateScheduleJSON(year, "Fall", generated), year, "fall")
    ensures IsValidTerm("Fall") && IsValidTerm("fall")
  {
    assert ToLower("Fall") == "fall" && ToLower("fall") == "fall";
  }

  /** The filter {"year": year, "terms.term": term}: the year, and any term named exactly `term`. */
  predicate ScheduleMatches(s: Schedule, year: int, term: string) {
    s.year == year && exists k :: 0 <= k < |s.terms| && s.terms[k].term == term
  }

  function Keyed(year: int, term: string): Schedule -> bool {
    (s: Schedule) => ScheduleMatches(s, year, term)
  }

  /** The schedule FindOne, UpdateOne and DeleteOne act on: the first match in store order. */
  function FindSchedule(store: seq<Schedule>, year: int, term: string): (r: Option<nat>)
    ensures r.Some? ==> r.value < |store| && ScheduleMatches(store[r.value], year, term)
    ensures r.Some? ==> forall j :: 0 <= j < r.value ==> !ScheduleMatches(store[j], year, term)
    ensures r.None? ==> forall j :: 0 <= j < |store| ==> !ScheduleMatches(store[j], year, term)
  {
    FirstIndex(store, Keyed(year, term))
  }

  /** CountDocuments with the same filter. */
  function CountSchedules(store: seq<Schedule>, year: int, term: string): nat {
    CountWhere(store, Keyed(year, term))
  }

  /** scheduleExists: the count is positive exactly when a matching schedule is found. */
  function ScheduleExists(store: seq<Schedule>, year: int, term: string): (r: bool)
    ensures r <==> FindSchedule(store, year, term).Some?
    ensures r <==> exists j :: 0 <= j < |store| && ScheduleMatches(store[j], year, term)
  {
    CountPositiveIffFound(store, Keyed(year, term));
    CountSchedules(store, year, term) > 0
  }

  /** The schedule after "$set" with the fields the patch names. */
  function ApplyPatch(s: Schedule, patch: SchedulePatch): (r: Schedule)
    ensures patch.year.Some? ==> r.year == patch.year.value
    ensures patch.year.None? ==> r.year == s.year
    ensures patch.terms.Some? ==> r.terms == patch.terms.value
    ensures patch.terms.None? ==> r.terms == s.terms
  {
    Schedule(
      if patch.year.Some? then patch.year.value else s.year,
      if patch.terms.Some? then patch.terms.value else s.terms)
  }

  /** A request path split at '/' has the year and the term as its third and fourth pieces. */
  predicate HasYearAndTerm(path: string) {
    |Split(path, '/')| >= 4
  }

  /** GetSchedules: the whole store in order; an empty store encodes as JSON null. */
  function GetSchedules(store: seq<Schedule>): (r: Http.Reply<seq<Schedule>>)
    ensures r.status == Http.OK
    ensures r.body.Some? <==> |store| > 0
    ensures r.body.Some? ==> r.body.value == store
  {
    Http.Reply(Http.OK, if |store| == 0 then None else Some(store))
  }

  /** GetSchedule on a path /schedules/{year}/{term}. */
  function GetSchedule(store: seq<Schedule>, path: string): (r: Http.Reply<Schedule>)
    ensures r.status == Http.BadRequest <==>
              !HasYearAndTerm(path) || !Atoi(Split(path, '/')[2]).ok || !IsValidTerm(Split(path, '/')[3])
    ensures r.status == Http.NotFound <==>
              && HasYearAndTerm(path) && Atoi(Split(path, '/')[2]).ok && IsValidTerm(Split(path, '/')[3])
              && !ScheduleExists(store, Atoi(Split(path, '/')[2]).value, Split(path, '/')[3])
    ensures r.status == Http.OK <==> r.body.Some?
    ensures r.status == Http.BadRequest || r.status == Http.NotFound || r.status == Http.OK
    ensures r.body.Some? ==>
              var year := Atoi(Split(path, '/')[2]).value;
              var term := Split(path, '/')[3];
              && r.body.value == store[FindSchedule(store, year, term).value]
              && ScheduleMatches(r.body.value, year, term)
  {
    var params := Split(path, '/');
    if |params| < 4 then Http.Reply(Http.BadRequest, None)
    else
      var year := Atoi(params[2]);
      if !year.ok then Http.Reply(Http.BadRequest, None)
      else if !IsValidTerm(params[3]) then Http.Reply(Http.BadRequest, None)
      else match FindSchedule(store, year.value, params[3])
        case None => Http.Reply(Http.NotFound, None)
        case Some(i) => Http.Reply(Http.OK, Some(store[i]))
  }

  /**
   * A path with one segment after /schedules splits into three pieces, so
   * it never names a year and a term, and GetSchedule answers it with 400.
   */
  lemma SingleSegmentPathRefused(store: seq<Schedule>, segment: string)
    requires '/' !in segment
    ensures !HasYearAndTerm("/schedules/" + segment)
    ensures GetSchedule(store, "/schedules/" + segment) == Http.Reply(Http.BadRequest, None)
  {
    var pieces := ["", "schedules", segment];
    assert '/' !in pieces[0] && '/' !in pieces[1];
    SplitJoin(pieces, '/');
    assert Join(pieces[2..], '/') == segment;
    assert Join(pieces[1..], '/') == "schedules" + ['/'] + segment;
    assert Join(pieces, '/') == "/schedules/" + segment;
  }

  /** Once the only draft of a (year, term) is removed, nothing matches that key any more. */
  lemma RemovingOnlyMatchLeavesNone(store: seq<Schedule>, year: int, term: string, i: nat)
    requires i < |store| && ScheduleMatches(store[i], year, term)
    requires CountSchedules(store, year, term) == 1
    ensures FindSchedule(RemoveAt(store, i), year, term).None?
  {
    CountAfterRemove(store, Keyed(year, term), i);
    CountPositiveIffFound(RemoveAt(store, i), Keyed(year, term));
  }

  /** The draft store and the historical store of the lifecycle. */
  class ScheduleStore {
    var drafts: seq<Schedule>
    var history: seq<Schedule>

    constructor ()
      ensures drafts == [] && history == []
    {
      drafts := [];
      history := [];
    }

    /**
     * GenerateSchedule on a path /schedules/{year}/{term}/generate: term
     * check, the term's courses, capacity estimation, professors and
     * classrooms, timetable generation, then the draft insert.
     */
    method GenerateSchedule(
      path: string,
      termCourses: Option<seq<Courses.Course>>,
      estimation: ServiceReply<Capacity>,
      professors: Option<seq<Users.User>>,
      rooms: Option<seq<Classrooms.Classroom>>,
      generation: ServiceReply<GeneratedSchedule>,
      insertOk: bool)
      returns (status: nat, panics: bool, estimationSent: Option<EstimationRequest>,
               generationSent: Option<GenerationRequest>, created: Option<Schedule>)
      modifies this
      ensures history == old(history)
      ensures status == Http.BadRequest <==> !HasYearAndTerm(path) || !IsValidTerm(Split(path, '/')[3])
      ensures status == Http.OK <==>
                && HasYearAndTerm(path) && IsValidTerm(Split(path, '/')[3])
                && termCourses.Some? && professors.Some? && rooms.Some?
                && GeneratedFrom(generation).Some? && insertOk
      ensures status == Http.OK || status == Http.BadRequest || status == Http.InternalServerError
      ensures status != Http.OK ==> created.None? && drafts == old(drafts)
      ensures status == Http.OK ==>
                var year := Atoi(Split(path, '/')[2]).value;
                var term := Split(path, '/')[3];
                && created == Some(CreateScheduleJSON(year, term, GeneratedFrom(generation).value))
                && drafts == old(drafts) + [created.value]
                && CountSchedules(drafts, year, term) == CountSchedules(old(drafts), year, term) + 1
      ensures estimationSent.Some? <==> HasYearAndTerm(path) && IsValidTerm(Split(path, '/')[3]) && termCourses.Some?
      ensures estimationSent.Some? ==>
                && estimationSent.value.year == Split(path, '/')[2]
                && estimationSent.value.term == ToLower(Split(path, '/')[3])
                && estimationSent.value.term in {"fall", "spring", "summer"}
                && estimationSent.value.courses == termCourses.value
      ensures generationSent.Some? <==> estimationSent.Some? && professors.Some? && rooms.Some?
      ensures generationSent.Some? ==>
                var request := generationSent.value;
                && request.year == Split(path, '/')[2]
                && request.term == Split(path, '/')[3]
                && request.professors == professors.value
                && request.classrooms == rooms.value
                && (EstimatesFrom(estimation) == [] ==> FallbackCourses(termCourses.value, request.courses))
                && (EstimatesFrom(estimation) != [] ==>
                      request.courses == EstimatedCourses(termCourses.value, EstimatesFrom(estimation)))
      ensures panics <==>
                estimationSent.Some?
                && (EstimatesAsWritten(estimation).Crash?
                    || (generationSent.Some? && GeneratedAsWritten(generation).Crash?))
    {
      panics, estimationSent, generationSent, created := false, None, None, None;
      var params := Split(path, '/');
      if |params| < 4 {
        return Http.BadRequest, panics, estimationSent, generationSent, created;
      }
      var year, term := params[2], params[3];
      if !IsValidTerm(term) {
        return Http.BadRequest, panics, estimationSent, generationSent, created;
      }
      if termCourses.None? {
        return Http.InternalServerError, panics, estimationSent, generationSent, created;
      }
      estimationSent := Some(EstimationRequest(year, ToLower(term), termCourses.value));
      panics := EstimatesAsWritten(estimation).Crash?;
      var finalCourses := CreateCoursesArray(termCourses.value, Capacity(EstimatesFrom(estimation)));
      if professors.None? || rooms.None? {
        return Http.InternalServerError, panics, estimationSent, generationSent, created;
      }
      generationSent := Some(GenerationRequest(year, term, professors.value, finalCourses, rooms.value));
      panics := panics || GeneratedAsWritten(generation).Crash?;
      var generated := GeneratedFrom(generation);
      if generated.None? {
        return Http.InternalServerError, panics, estimationSent, generationSent, created;
      }
      var schedule := CreateScheduleJSON(Atoi(year).value, term, generated.value);
      if !insertOk {
        return Http.InternalServerError, panics, estimationSent, generationSent, created;
      }
      CountAfterAppend(drafts, schedule, Keyed(Atoi(year).value, term));
      drafts := drafts + [schedule];
      created := Some(schedule);
      status := Http.OK;
    }

    /**
     * ApproveSchedule: the first draft matching the body's (year, term) is
     * copied to the history, and only then deleted from the drafts.
     */
    method ApproveSchedule(body: Option<ApprovalRequest>, insertOk: bool, deleteOk: bool) returns (status: nat)
      modifies this
      ensures body.None? || !IsValidTerm(body.value.term) ==>
                status == Http.BadRequest && drafts == old(drafts) && history == old(history)
      ensures body.Some? && IsValidTerm(body.value.term) ==>
                var found := FindSchedule(old(drafts), body.value.year, body.value.term);
                && (found.None? ==> status == Http.InternalServerError && drafts == old(drafts) && history == old(history))
                && (found.Some? && !insertOk ==>
                      status == Http.InternalServerError && drafts == old(drafts) && history == old(history))
                && (found.Some? && insertOk ==> history == old(history) + [old(drafts)[found.value]])
                && (found.Some? && insertOk && !deleteOk ==> status == Http.InternalServerError && drafts == old(drafts))
                && (found.Some? && insertOk && deleteOk ==>
                      status == Http.OK && drafts == RemoveAt(old(drafts), found.value))
      ensures status == Http.OK ==>
                && multiset(drafts) + multiset(history) == multiset(old(drafts)) + multiset(old(history))
                && CountSchedules(drafts, body.value.year, body.value.term)
                   == CountSchedules(old(drafts), body.value.year, body.value.term) - 1
      ensures multiset(old(drafts)) + multiset(old(history)) <= multiset(drafts) + multiset(history)
    {
      if body.None? || !IsValidTerm(body.value.term) {
        return Http.BadRequest;
      }
      var year, term := body.value.year, body.value.term;
      var found := FindSchedule(drafts, year, term);
      if found.None? {
        return Http.InternalServerError;
      }
      var i := found.value;
      if !insertOk {
        return Http.InternalServerError;
      }
      history := history + [drafts[i]];
      if !deleteOk {
        return Http.InternalServerError;
      }
      CountAfterRemove(drafts, Keyed(year, term), i);
      drafts := RemoveAt(drafts, i);
      status := Http.OK;
    }

    /**
     * UpdateSchedule on a path /schedules/{year}/{term}: the first draft
     * with that key takes the fields of the body.
     */
    method UpdateSchedule(path: string, body: Option<SchedulePatch>) returns (status: nat)
      modifies this
      ensures history == old(history)
      ensures status == Http.BadRequest <==>
                || !HasYearAndTerm(path) || !Atoi(Split(path, '/')[2]).ok || !IsValidTerm(Split(path, '/')[3])
                || (ScheduleExists(old(drafts), Atoi(Split(path, '/')[2]).value, Split(path, '/')[3]) && body.None?)
      ensures status == Http.InternalServerError <==>
                && HasYearAndTerm(path) && Atoi(Split(path, '/')[2]).ok && IsValidTerm(Split(path, '/')[3])
                && !ScheduleExists(old(drafts), Atoi(Split(path, '/')[2]).value, Split(path, '/')[3])
      ensures status == Http.OK || status == Http.BadRequest || status == Http.InternalServerError
      ensures status != Http.OK ==> drafts == old(drafts)
      ensures status == Http.OK ==>
                var i := FindSchedule(old(drafts), Atoi(Split(path, '/')[2]).value, Split(path, '/')[3]).value;
                && body.Some?
                && |drafts| == |old(drafts)|
                && drafts[i] == ApplyPatch(old(drafts)[i], body.value)
                && (forall j :: 0 <= j < |drafts| && j != i ==> drafts[j] == old(drafts)[j])
    {
      var params := Split(path, '/');
      if |params| < 4 {
        return Http.BadRequest;
      }
      var year := Atoi(params[2]);
      if !year.ok {
        return Http.BadRequest;
      }
      var term := params[3];
      if !IsValidTerm(term) {
        return Http.BadRequest;
      }
      if !ScheduleExists(drafts, year.value, term) {
        return Http.InternalServerError;
      }
      if body.None? {
        return Http.BadRequest;
      }
      var i := FindSchedule(drafts, year.value, term).value;
      drafts := drafts[i := ApplyPatch(drafts[i], body.value)];
      status := Http.OK;
    }
  }

  /** A patch that leaves the year and the terms alone leaves the schedule as it was. */
  lemma EmptyPatchKeepsSchedule(s: Schedule)
    ensures ApplyPatch(s, SchedulePatch(None, None)) == s
  {
  }

  /** A patch that sets neither year nor terms keeps the schedule under its key. */
  lemma PatchKeepsKey(s: Schedule, patch: SchedulePatch, year: int, term: string)
    requires patch.year.None? || patch.year.value == s.year
    requires patch.terms.None?
    ensures ScheduleMatches(ApplyPatch(s, patch), year, term) <==> ScheduleMatches(s, year, term)
  {
  }

  /** A request path made of the given pieces, which the handlers split back into those pieces. */
  method RequestPath(pieces: seq<string>) returns (path: string)
    requires |pieces| >= 1
    requires forall i :: 0 <= i < |pieces| ==> '/' !in pieces[i]
    ensures Split(path, '/') == pieces
  {
    path := Join(pieces, '/');
    SplitJoin(pieces, '/');
  }

  lemma Year2025()
    ensures Atoi("2025") == Parsed(2025, true)
  {
    assert AllDigits("2025");
    assert "2025"[..3] == "202" && "202"[..2] == "20" && "20"[..1] == "2" && "2"[..0] == "";
    assert DigitsValue("2025") == 2025;
  }

  /** The draft the scenarios below generate for 2025 Fall. */
  function Fall2025Draft(): Schedule {
    Schedule(2025, [Term("Fall", [CourseOffering("CSC225", [SampleSection()])])])
  }

  /**
   * POST /schedules/2025/Fall/generate with the course CSC225, while the
   * estimation service answers 500 and the generation service returns one section.
   */
  method GenerateFall2025(store: ScheduleStore) returns (status: nat, panicked: bool)
    modifies store
    ensures status == Http.OK && !panicked
    ensures store.drafts == old(store.drafts) + [Fall2025Draft()] && store.history == old(store.history)
  {
    var csc225 := Courses.Course("CSC225", "Algorithms and Data Structures I", [], [["CSC115"]], []);
    var timetable := GeneratedSchedule([CourseOffering("CSC225", [SampleSection()])]);
    var path := RequestPath(["", "schedules", "2025", "Fall", "generate"]);
    Year2025();
    assert ToLower("Fall") == "fall";
    var refused: ServiceReply<Capacity> := Answered(Http.InternalServerError, None);
    var reply := Answered(Http.OK, Some(timetable));
    assert !EstimatesAsWritten(refused).Crash? && !GeneratedAsWritten(reply).Crash?;
    var estimationSent, sent, created;
    status, panicked, estimationSent, sent, created := store.GenerateSchedule(
      path, Some([csc225]), refused, Some([]), Some([]), reply, true);
  }

  /** Generating 2025 Fall, approving it, reading it back from the drafts, approving again. */
  method GenerateApproveScenario()
    returns (generated: nat, panicked: bool, firstApproval: nat, lookup: nat, secondApproval: nat, approved: seq<Schedule>)
    ensures generated == Http.OK && !panicked && firstApproval == Http.OK
    ensures lookup == Http.NotFound && secondApproval == Http.InternalServerError
    ensures approved == [Fall2025Draft()]
  {
    var draft := Fall2025Draft();
    var readPath := RequestPath(["", "schedules", "2025", "Fall"]);
    Year2025();
    assert ToLower("Fall") == "fall";
    var store := new ScheduleStore();
    generated, panicked := GenerateFall2025(store);
    assert store.drafts == [draft] && store.history == [];
    assert ScheduleMatches(draft, 2025, "Fall") by { assert draft.terms[0].term == "Fall"; }
    FirstIndexIs(store.drafts, Keyed(2025, "Fall"), 0);
    firstApproval := store.ApproveSchedule(Some(ApprovalRequest(2025, "Fall")), true, true);
    assert store.drafts == [] && store.history == [draft];
    lookup := GetSchedule(store.drafts, readPath).status;
    secondApproval := store.ApproveSchedule(Some(ApprovalRequest(2025, "Fall")), true, true);
    approved := store.history;
  }

  /**
   * With the estimation service answering 500, the step as written goes on
   * without estimates and the one course goes out with a fallback enrolment.
   */
  method EstimationRefusedScenario() returns (sent: seq<CourseWithCapacity>)
    ensures |sent| == 1 && sent[0].course == "CSC225" && sent[0].prerequisites == [["CSC115"]]
    ensures FallbackLow <= sent[0].preEnroll < FallbackHigh && sent[0].minEnroll == MinEnroll
  {
    var csc225 := Courses.Course("CSC225", "Algorithms and Data Structures I", [], [["CSC115"]], []);
    var step := EstimatesAsWritten(Answered(Http.InternalServerError, None));
    assert step == Proceed([]);
    sent := CreateCoursesArray([csc225], Capacity(step.value));
  }

  /**
   * With estimates listed, a course takes its first estimate and a course
   * without one is left out of the generation request.
   */
  method EstimatedScenario() returns (sent: seq<CourseWithCapacity>)
    ensures |sent| == 1 && sent[0].course == "CSC225" && sent[0].preEnroll == 75
  {
    var csc225 := Courses.Course("CSC225", "Algorithms and Data Structures I", [], [["CSC115"]], []);
    var seng265 := Courses.Course("SENG265", "Software Development Methods", [], [], []);
    var estimates := [Estimate("CSC110", 200), Estimate("CSC225", 75), Estimate("CSC225", 90)];
    FirstIndexIs(estimates, ForCourse("CSC225"), 1);
    assert FirstEstimate(estimates, "SENG265").None?;
    assert [csc225, seng265][..1] == [csc225] && [csc225][..0] == [];
    assert EstimatedCapacity(csc225, estimates) == [WithCapacity(csc225, 75)];
    assert EstimatedCapacity(seng265, estimates) == [];
    assert EstimatedCourses([csc225], estimates) == [WithCapacity(csc225, 75)];
    assert EstimatedCourses([csc225, seng265], estimates) == [WithCapacity(csc225, 75)];
    sent := CreateCoursesArray([csc225, seng265], Capacity(estimates));
  }

  function SampleSection(): Class {
    Class("A01", "ECS", "125", "", ["Monday", "Thursday"], 100, 0, "08:30", "09:50")
  }

  /** Generating the same (year, term) twice leaves two drafts under that key. */
  method GenerateTwiceScenario() returns (first: nat, second: nat, panicked: bool, drafts: nat)
    ensures first == Http.OK && second == Http.OK && !panicked && drafts == 2
  {
    var path := RequestPath(["", "schedules", "2025", "Fall", "generate"]);
    assert ToLower("Fall") == "fall";
    var timetable := Answered(Http.OK, Some(GeneratedSchedule([])));
    var store := new ScheduleStore();
    var refused := Answered(Http.InternalServerError, None);
    var p1, p2, e, g, c;
    first, p1, e, g, c := store.GenerateSchedule(path, Some([]), refused, Some([]), Some([]), timetable, true);
    second, p2, e, g, c := store.GenerateSchedule(path, Some([]), refused, Some([]), Some([]), timetable, true);
    panicked := p1 || p2;
    drafts := CountSchedules(store.drafts, Atoi("2025").value, "Fall");
  }

}
