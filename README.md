# Scheduling backend: a Dafny model of its handlers

The backend is an HTTP service over MongoDB that keeps the teaching catalog
(courses, classrooms, users) and runs the scheduling lifecycle of a term:
**generate** a draft timetable (courses of the term, enrolment estimates from
an estimation service, professors and classrooms, then a timetable from a
generation service), **read** and **update** drafts, and **approve** a draft
by moving it to the historical store. A middleware guards the `/users`
routes with a bearer token.

The model is organised as the program is:

| module | file | models |
|---|---|---|
| `Wrappers`, `Seqs` | wrappers.dfy, seqs.dfy | `Option`; first match, counting and removal on sequences |
| `Text` | text.dfy | the `strings`/`strconv` functions the handlers call: `HasPrefix`, `TrimPrefix`, `TrimSpace`, `Contains`, `ToLower`, `Split`, `Atoi` |
| `Store` | store.dfy | a collection as an ordered list of documents, exact-match filters, `FindOne`, `CountDocuments`, `InsertOne`, `UpdateOne` with `$set`, `DeleteOne` (class `Collection`) |
| `Http` | http.dfy | status codes and a reply (status, optional body) |
| `Jwt` | jwt.dfy | `CleanJWT` |
| `Middleware` | middleware.dfy | the decision chain of `Users_API_Access_Control` |
| `Courses`, `Classrooms`, `Users` | courses.dfy, classrooms.dfy, users.dfy | the CRUD handlers over a `Collection`, which they update in place |
| `Schedules` | schedules.dfy | term validation, `createCoursesArray`, `createScheduleJSON`, `scheduleExists`, the read handlers, and class `ScheduleStore` (drafts and history) with `GenerateSchedule`, `ApproveSchedule`, `UpdateSchedule` |

Each handler is a method (or, when it only reads, a function) that returns
the status it writes. Its contract states exactly when each status is
written and what the store holds afterwards. The things a handler asks
the outside world for are parameters:
- a decoded request body is an `Option`, `None` when decoding fails;
- the result of a catalog query is an `Option`;
- a reply of the estimation or generation service is a `ServiceReply`, `Unreachable` when there is no reply;
- the success of a store write is a `bool`;
- the random draw of `rand.Intn` is an unconstrained choice in its range;
- token verification is a function.

Behaviour of the code worth noting (some of it differs from what the
comments next to it say):
- With a non-empty estimate list, a course the estimation service did not
  mention is left out of the generation request, not kept with a default
  (`Schedules.UnestimatedCourseIsDropped`).
- The fallback enrolment is drawn from [80, 120), as `rand.Intn(120-80) + 80`
  computes, not from 80–100 as the comment at schedules.go:242 says.
- `GetSchedules` on an empty collection encodes a nil slice, i.e. JSON `null`
  (body `None`), with status 200.
- Term validity ignores case, but drafts are stored and looked up under the
  term exactly as written in the path (`Schedules.TermKeyIsCaseSensitive`):
  a draft generated as `Fall` cannot be approved as `fall`.
- `main.go` routes `GetSchedules`, `GetSchedule` and `UpdateSchedule` to a
  `schedules` collection. `tests/main_test.go` routes only `GetSchedules`,
  to `draft_schedules` (line 190) and to `previous_schedules` (line 202).
  `GetSchedules`/`GetSchedule` are modelled on any sequence of schedules.
  `UpdateSchedule` is modelled on the drafts.
- `main.go:107-113` registers `GetSchedule` and `UpdateSchedule` on
  `/schedules/{schedule}`, a single segment. Such a path splits into three
  pieces, so both handlers answer it with 400
  (`Schedules.SingleSegmentPathRefused`).
- The catalog handlers read a stored document back through the Go record:
  `FindOne(...).Decode` keeps only the record's fields, leaves a missing one
  at its zero value and fails on a field of the wrong kind, and the reply is
  that record encoded under its JSON names. So a user's `isAdmin` is never
  sent, a course stored with `equipements` is sent with `equipment`, a field
  an update added whose lower-cased name is not one of the record's is not
  read back, and a record that no
  longer decodes gives 500 on GET (and, through `userExists`, 404 on a user
  update or delete). The course record declares no co-requisites, so the
  course handlers neither store nor return any, although `schedules.go:103`
  and `:119` read co-requisites from it.
- The estimation and generation steps of `GenerateSchedule` panic on some
  service replies (see "## Findings"). `GenerateSchedule` composes the
  corrected steps and reports with `panics` exactly the inputs on which the
  code as written panics instead.

## Model

| member | source | states |
|---|---|---|
| Jwt.CleanJWT | modules/helper/jwt.go:69-77 | a token is returned exactly when the header starts with "Bearer ", and prefix + token is the header |
| Jwt.CleanJWTRoundTrip | modules/helper/jwt.go:69-77 | cleaning "Bearer " + t gives back t for every t |
| Jwt.CleanJWTIsSuffix | modules/helper/jwt.go:72-73 | a cleaned token is the header after its first seven characters |
| Jwt.CleanJWTStripsOnce | modules/helper/jwt.go:73 | only one prefix is stripped ("Bearer Bearer x" gives "Bearer x") |
| Jwt.CleanJWTRejects | modules/helper/jwt.go:72-76 | lower-case "bearer", a missing space, "Bearer" alone and the empty header are errors |
| Middleware.AccessControl | modules/middleware/middleware.go:17-97 | a path without "/users" passes; a refusal is 401, 403 or 500; 500 only on GET; a missing header either passes or gets 401 |
| Middleware.AccessControlMatchesPolicy | modules/middleware/middleware.go:17-97 | the decision chain passes a request exactly when the declarative policy permits it: outside /users always; inside, for an authenticated admin, or for a non-admin who does not write and, on GET, reads the record whose email is theirs |
| Middleware.OtherPathsPass | modules/middleware/middleware.go:20-25 | a path without "/users" passes whatever its header |
| Middleware.UnauthenticatedGets401 | modules/middleware/middleware.go:27-47 | under /users a missing header, a header without "Bearer " or a token that fails verification is answered 401 |
| Middleware.NonAdminWriteGets403 | modules/middleware/middleware.go:51-55 | an authenticated non-admin is answered 403 on POST, PUT, PATCH and DELETE |
| Middleware.NonAdminGet | modules/middleware/middleware.go:58-89 | an authenticated non-admin GET gets 403 for a missing user or another email, 500 for a failed lookup, and passes on equal emails |
| Middleware.AdminPasses | modules/middleware/middleware.go:51-94 | an admin with a valid token passes for every method |
| Text.TrimPrefix | modules/courses/courses.go:125 | with the prefix present, prefix + result is the input; otherwise the input is returned unchanged |
| Text.HasPrefixIff | modules/helper/jwt.go:72 | HasPrefix holds exactly when the first characters of the string are those of the prefix |
| Text.ContainsIff | modules/middleware/middleware.go:21 | Contains holds exactly when the substring occurs at some index |
| Text.TrimSpace | modules/users/users.go:114 | the result is the middle of the input, with only white space before and after it, and it neither starts nor ends with white space |
| Text.ToLower | modules/schedules/schedules.go:171 | same length; a capital becomes its small letter, U+0130 becomes 'i', U+212A becomes 'k', and every other code point is kept, so no ASCII capital is left |
| Text.TrimLeft | modules/users/users.go:114 | the result is the longest suffix of the input not starting with white space |
| Text.TrimRight | modules/users/users.go:114 | the result is the longest prefix of the input not ending with white space |
| Text.Atoi | modules/schedules/schedules.go:482-487 | success exactly for an optionally signed, non-empty digit string whose value fits 64 signed bits, and then the signed decimal value; digits worth more than 2^64 - 1 give the bound of their sign with an error whatever follows them; otherwise a non-digit gives 0 with an error; an empty string or a lone sign gives 0 with an error; an all-digit magnitude beyond the signed range gives the bound of its sign with an error; every value lies in the 64-bit range |
| Text.AtoiExamples | modules/schedules/schedules.go:482-487 | "-12" parses to -12; "12a" and "+-1" are syntax errors with value 0 |
| Text.AtoiOverflowBeforeJunk | modules/schedules/schedules.go:345 | digits worth more than 2^64 - 1 followed by a non-digit parse to MaxInt64 with an error |
| Text.AtoiOverflowThenJunk | modules/schedules/schedules.go:345 | "99999999999999999999x" parses to MaxInt64 with an error, not to 0 |
| Text.Split | modules/schedules/schedules.go:474 | at least one piece, no piece holds the separator, and joining the pieces with the separator gives the input back |
| Text.SplitJoin | modules/schedules/schedules.go:474 | splitting a join of separator-free pieces gives back the pieces |
| Store.FindFirst | modules/users/users.go:117-119 | FindOne: the first matching document, or none when no document matches |
| Store.SetFirst | modules/users/users.go:173-177 | UpdateOne with $set: the first match gains every field of the body and keeps its other fields; every other document and the length are unchanged; no match changes nothing |
| Store.DeleteFirst | modules/users/users.go:208-209 | DeleteOne: the first match is removed and the other documents keep their order, the multiset of the rest is kept, and the count of matches drops by one; no match changes nothing |
| Store.DecodeStrArray | modules/courses/courses.go:136 | a string array as stored decodes back into the same Go []string |
| Store.DecodeStrGroups | modules/courses/courses.go:136 | an array of string arrays as stored decodes back into the same Go [][]string |
| Store.DecodeStrMap | modules/users/users.go:119 | a string object as stored decodes back into the same Go map[string]string |
| Store.Collection.InsertOne | modules/courses/courses.go:61 | the document is appended |
| Store.Collection.UpdateOne | modules/courses/courses.go:191-194 | the documents become SetFirst of the old documents |
| Store.Collection.DeleteOne | modules/courses/courses.go:240 | the documents become DeleteFirst of the old documents |
| Courses.PathShorthand | modules/courses/courses.go:125 | a path starting with "/courses/" gives the rest of it; any other path is kept whole |
| Courses.HasThreeConsecutiveNumericsIff | modules/courses/courses.go:256-259 | the shorthand check holds exactly when three ASCII digits in a row start at some index |
| Courses.InsertKeepsUnique | modules/courses/courses.go:46-61 | inserting a course whose shorthand is not stored keeps shorthands unique |
| Courses.CourseDoc | modules/courses/courses.go:17-22 | the stored course has exactly the BSON fields shorthand, name, equipements and prerequisites, and no co-requisites |
| Courses.CourseJson | modules/courses/courses.go:17-22 | the encoded course has exactly the JSON fields shorthand, name, equipment and prerequisites, holding the stored values, with `equipements` sent as `equipment` |
| Courses.DecodeStoredCourse | modules/courses/courses.go:136 | a stored course decodes back into the same record, without co-requisites |
| Courses.FindCourse | modules/courses/courses.go:134-137 | FindOne followed by Decode: a course only when the first match exists and decodes, and then with the shorthand searched for |
| Courses.CreateCourse | modules/courses/courses.go:25-74 | 400 exactly for a missing body or malformed shorthand; 500 for a well-formed shorthand already stored; 200 exactly when the shorthand is well formed and not stored, with the course appended and echoed under its JSON names; nothing changes on failure and no body is written; unique shorthands are preserved |
| Courses.GetCourse | modules/courses/courses.go:120-149 | 400 for a malformed shorthand, 500 when no course has it or the first one does not decode, otherwise 200 with the decoded course encoded as JSON: the shorthand of the path, `equipment` and no co-requisites |
| Courses.CreateThenGet | modules/courses/courses.go:25-149 | after CreateCourse accepts a course, GetCourse on its path replies 200 with that course encoded as JSON |
| Courses.UpdateCourse | modules/courses/courses.go:152-207 | 500 for an unknown shorthand or a first match that does not decode, 400 for a missing body or malformed shorthand, otherwise 200 with $set applied to the first match; nothing changes on failure |
| Courses.DeleteCourse | modules/courses/courses.go:210-253 | 400 for a malformed shorthand, 500 for an unknown one or a first match that does not decode; on 200 the first match is removed, which with unique shorthands leaves none and keeps them unique; nothing changes on failure |
| Classrooms.ClassroomExists | modules/classrooms/classrooms.go:301-307 | true exactly when a stored classroom has that building and room |
| Classrooms.CreateClassroom | modules/classrooms/classrooms.go:23-72 | 400 exactly for a missing body; 409 when a classroom of the same building is stored; otherwise 200 with the classroom appended; nothing changes on failure; one classroom per building is preserved |
| Classrooms.ClassroomDoc | modules/classrooms/classrooms.go:16-20 | a stored or encoded classroom has exactly the fields building, capacity and room |
| Classrooms.DecodeStoredClassroom | modules/classrooms/classrooms.go:144 | a stored classroom whose capacity fits a Go int decodes back into the same record |
| Classrooms.GetClassroom | modules/classrooms/classrooms.go:121-164 | 200 with no body when a route variable is missing; with both, 404 exactly when no classroom has that building and room; 500 when the first one does not decode; otherwise 200 with the decoded record, whose fields are exactly building, capacity and room and whose key is the one asked for |
| Classrooms.UpdateClassroom | modules/classrooms/classrooms.go:166-238 | a missing parameter writes nothing (an empty 200); 500 for an unknown classroom, 400 for a missing body, otherwise 200 with $set applied to the first match; nothing changes on failure |
| Classrooms.UpdateThenGet | modules/classrooms/classrooms.go:121-238 | after an update that keeps the key, GetClassroom answers 200 exactly when the updated document decodes and 500 otherwise (in particular for a capacity of the wrong kind); the reply is the record of the key with the updated capacity, so a numeric capacity is read back and a field whose lower-cased name is not one of the record's is not |
| Classrooms.DeleteClassroom | modules/classrooms/classrooms.go:241-298 | a missing parameter writes nothing (an empty 200); 500 for an unknown classroom, otherwise 200 with the first match removed |
| Classrooms.SecondRoomOfBuildingRefused | modules/classrooms/classrooms.go:38-52 | creating room 2 of a building that holds room 1 is refused with 409 |
| Classrooms.CreateClassroomByRoom | modules/classrooms/classrooms.go:23-72 | CreateClassroom with the duplicate check keyed on building and room: 409 exactly for a stored (building, room); unique keys are preserved |
| Classrooms.SecondRoomOfBuildingAccepted | modules/classrooms/classrooms.go:38-52 | with the corrected check a second room of a building is accepted and a repeated room is refused |
| Classrooms.UpdateCapacityReadBack | tests/classroom_test.go:155-200 | create a classroom with capacity 100, update it to 98, and read back 98 |
| Users.PathUsername | modules/users/users.go:113-114 | the name after "/users/" has no surrounding white space and is no longer than the path |
| Users.PathUsernameOf | modules/middleware/middleware.go:61-62 | a username without surrounding white space is read back from "/users/" + username |
| Users.UserJson | modules/users/users.go:17-26 | the encoded user has exactly the JSON fields username, email, password, firstname, lastname, preferences and qualifications; isAdmin is never written |
| Users.DecodeStoredUser | modules/users/users.go:119 | a stored user decodes back into the same record |
| Users.FindUser | modules/users/users.go:117-119 | FindOne followed by Decode: a user only when the first match exists and decodes, and then with the username searched for |
| Users.UserExists | modules/users/users.go:224-229 | true only when a stored user has that username; when every stored user decodes, true exactly then |
| Users.CreateUser | modules/users/users.go:29-59 | 400 exactly for a missing body; otherwise 200 with the user appended with isAdmin forced to false; a store whose users all decode keeps that property |
| Users.GetUser | modules/users/users.go:108-138 | 404 exactly when no user has the username after the prefix is removed and white space trimmed; 500 when the first such record does not decode; otherwise 200 with the decoded record encoded without isAdmin |
| Users.GetStoredUser | modules/users/users.go:108-138 | when every stored user decodes, GetUser answers 200 exactly for an existing user and 404 otherwise |
| Users.UpdateUser | modules/users/users.go:141-189 | 404 for an unknown user or one whose record does not decode, 400 for a missing body, 500 for a body setting isAdmin, otherwise 200 with $set on the first match; no update ever grants admin rights |
| Users.DeleteUser | modules/users/users.go:192-221 | 404 exactly for an unknown user or one whose record does not decode, otherwise 200 with the first match removed |
| Users.DuplicateUsersAccepted | modules/users/users.go:29-59 | creating the same user twice succeeds twice and stores two records with that username |
| Schedules.IsValidTerm | modules/schedules/schedules.go:171-175 | a valid term spells fall, spring or summer in any case, so it has 4 or 6 characters |
| Schedules.ValidTermIgnoresCase | modules/schedules/schedules.go:171-175 | lowering is idempotent, so a term is valid exactly when its lower-case form is |
| Schedules.ValidTermExamples | modules/schedules/schedules.go:171-175 | "Fall", "SUMMER", "spring" and "SPRİNG" are valid; "winter", "fall " and "" are not |
| Schedules.WithCapacity | modules/schedules/schedules.go:93-134 | a capacity-augmented course keeps the shorthand and requisites, is not a PEng course, and has minimum enrolment 5 and hours (3,0,0) |
| Schedules.FirstEstimate | modules/schedules/schedules.go:111-130 | the first estimate naming the course, or none when no estimate names it |
| Schedules.CreateCoursesArray | modules/schedules/schedules.go:93-134 | with no estimates every course is sent, in order, with an enrolment in [80, 120); otherwise the courses sent are those with an estimate, each with its first estimate |
| Schedules.PickedShape | modules/schedules/schedules.go:111-130 | the courses kept are at strictly increasing positions of the input, one per output entry |
| Schedules.PickedCourses | modules/schedules/schedules.go:111-130 | each output entry is its course with that course's first estimate |
| Schedules.PickedExactly | modules/schedules/schedules.go:111-130 | a course is kept exactly when some estimate names it |
| Schedules.AllEstimatedKeepsEveryCourse | modules/schedules/schedules.go:111-130 | when every course has an estimate, all are sent in order with their first estimates |
| Schedules.UnestimatedCourseIsDropped | modules/schedules/schedules.go:111-130 | a course without an estimate makes the list sent shorter than the term's courses |
| Schedules.PickedFewer | modules/schedules/schedules.go:111-130 | increasing positions below n that miss one position number fewer than n |
| Schedules.PickedAtMost | modules/schedules/schedules.go:111-130 | increasing positions below n number at most n |
| Schedules.EstimatedCoursesAtMost | modules/schedules/schedules.go:111-130 | capacity resolution never sends more courses than the term has |
| Schedules.EstimatesFrom | modules/schedules/schedules.go:224-246 | the estimates of a decoded 200 reply, and none (so the fallback draws) for any other reply |
| Schedules.EstimatesAsWritten | modules/schedules/schedules.go:220-246 | the step as written crashes exactly when there is no reply, never aborts, and goes on with estimates only from a decoded 200 reply |
| Schedules.EstimatesAsWrittenDiffers | modules/schedules/schedules.go:224 | the estimation step as written crashes exactly when the service is unreachable and otherwise agrees with EstimatesFrom |
| Schedules.GeneratedFrom | modules/schedules/schedules.go:329-341 | a timetable exactly for a decoded 200 reply |
| Schedules.GeneratedAsWritten | modules/schedules/schedules.go:329-341 | the step as written crashes exactly on no reply or a non-200 reply, aborts with 500 exactly on an undecodable 200 reply, and otherwise goes on with the decoded timetable |
| Schedules.GeneratedAsWrittenDiffers | modules/schedules/schedules.go:329-335 | the generation step as written crashes exactly on no reply or a non-200 reply, and otherwise proceeds exactly when GeneratedFrom gives a timetable |
| Schedules.CreateScheduleJSON | modules/schedules/schedules.go:136-149 | the draft has the year and a single term holding the generated courses, and matches (year, term) and no other key |
| Schedules.TermKeyIsCaseSensitive | modules/schedules/schedules.go:171-175 | "Fall" and "fall" are both valid, yet a draft created under "Fall" does not match "fall" |
| Schedules.FindSchedule | modules/schedules/schedules.go:389-394 | the first draft whose year matches and that has a term of that exact name, or none |
| Schedules.ScheduleExists | modules/schedules/schedules.go:606-612 | the count is positive exactly when a matching schedule exists |
| Schedules.ApplyPatch | modules/schedules/schedules.go:585-595 | each field the patch names is replaced and each other field is kept |
| Schedules.GetSchedules | modules/schedules/schedules.go:421-467 | 200 with the whole store in order, and null for an empty store |
| Schedules.GetSchedule | modules/schedules/schedules.go:470-521 | 400 exactly for a short path, a non-integer year or an invalid term; 404 exactly for a valid key that is not stored; otherwise 200 with the first match |
| Schedules.SingleSegmentPathRefused | main.go:107-113 | a path /schedules/{segment} never carries a year and a term, and GetSchedule answers it with 400 (schedules.go:474-479) |
| Schedules.RemovingOnlyMatchLeavesNone | modules/schedules/schedules.go:405-410 | removing the only draft of a key leaves none under that key |
| Schedules.ScheduleStore.GenerateSchedule | modules/schedules/schedules.go:153-359 | 400 exactly for a short path or an invalid term. 200 exactly when every query succeeds, the generation reply is a decoded 200 and the insert succeeds; the draft then appended is the timetable under (year, term). What the estimation and generation services are sent: the lower-cased term, the term's courses, and the fallback or estimated courses. The history is never touched. `panics` holds exactly when the estimation service gives no reply, or when the generation request goes out and the reply is missing or not a 200; on those inputs the code as written panics, and on every other input the status and the drafts are those of the code as written |
| Schedules.ScheduleStore.ApproveSchedule | modules/schedules/schedules.go:362-418 | 400 for a missing body or invalid term; 500 when no draft matches or the insert fails, with nothing changed; a successful insert appends the draft to the history; a failed delete then gives 500; success removes it from the drafts. No schedule is ever lost, and on 200 the two stores together are a permutation of before |
| Schedules.ScheduleStore.UpdateSchedule | modules/schedules/schedules.go:524-603 | 400 exactly for a bad path, year or term, or an existing key with a missing body; 500 exactly for a valid key that is not stored; 200 applies the patch to the first match and leaves every other draft as it was |
| Schedules.EmptyPatchKeepsSchedule | modules/schedules/schedules.go:585-595 | a patch naming neither the year nor the terms leaves the schedule as it was |
| Schedules.PatchKeepsKey | modules/schedules/schedules.go:585-595 | a patch that keeps the year and does not set the terms keeps the schedule under every key it matched |
| Schedules.RequestPath | modules/schedules/schedules.go:157 | a path the handlers split back into the given pieces |
| Schedules.GenerateFall2025 | modules/schedules/schedules.go:153-359 | generating 2025 Fall for CSC225 while the estimation service answers 500 gives 200 without a panic and appends exactly the generated draft |
| Schedules.GenerateApproveScenario | modules/schedules/schedules.go:153-418 | generate a Fall 2025 draft (200, no panic), approve it (200), look it up as a draft (404), approve it again (500); the history holds exactly the generated schedule |
| Schedules.EstimationRefusedScenario | modules/schedules/schedules.go:224-248 | with the estimation service answering 500, the step as written goes on without estimates and the course is sent with its prerequisites and an enrolment in [80, 120) |
| Schedules.EstimatedScenario | modules/schedules/schedules.go:111-130 | with estimates for CSC225 (first 75) only, CSC225 is sent with 75 and SENG265 is dropped |
| Schedules.GenerateTwiceScenario | modules/schedules/schedules.go:153-359 | generating the same term twice, with the estimation service answering 500, succeeds twice without a panic and leaves two drafts under one key |

## Left out

- Store failures on the catalog handlers are not modelled: an error of the store itself in `FindOne`, `CountDocuments`, `InsertOne`, `UpdateOne` or `DeleteOne` is assumed not to happen there. A stored document that fails to decode into the record is modelled. The 500 paths of `GetSchedules` and `GetSchedule` are left out for the same reason. Store failures are modelled only in `GenerateSchedule` and `ApproveSchedule`, where the order of the writes matters.
- Decoding a stored document into a record covers the value kinds of the model: null, booleans, integers, strings, arrays and objects. Doubles, dates, object ids and the other BSON kinds are not modelled. A nil slice or map and an empty one are not told apart: the model encodes both as an empty array or object, where Go writes `null` for a nil one.
- Stored schedules are modelled as decoded `Schedule` values; a stored schedule that fails to decode (schedules.go:441, :505) is among the store failures left out.
- Courses.CreateCourse: the co-requisites of the `Course` value are not stored, because the course record has no such field. Schedule generation still receives each course with co-requisites as input.
- JSON decoding is all or nothing: a body either decodes (`Some`) or not (`None`). Partial decoding is not modelled. This includes an estimation reply whose decode fails halfway and leaves a partly filled capacity.
- MongoDB query semantics are modelled as exact equality on top-level fields. The one exception is the schedule filter on `terms.term`, which is "some term has that name". Operators, type coercion and array matching beyond that are not modelled.
- `GenerateSchedule`'s course query (`terms_offered` with a `$regex`) and `Course.SetCourse` are not modelled. The term's courses are an input. The same holds for the professor and classroom queries.
- `VerifyJWT` (the secret, signature and expiry), password hashing and SHA-256 are not modelled, and neither are the logger, `previous_schedules.go`, routing, the list handlers of courses, classrooms and users (`Find` with an empty filter) or concurrency between requests.
- `Text.ToLower`: does not model Unicode lower-casing beyond ASCII capitals, U+0130 and U+212A. Every other code point is left unchanged. No other code point lowers to an ASCII letter, so the fall/spring/summer decision is exact.
- `Schedules.ScheduleStore.UpdateSchedule`: acts on the drafts. The collection `main.go` passes (`schedules`) is not modelled as a separate store.
- `Schedules.ApplyPatch`: covers the `year` and `terms` fields of a schedule. Other fields a body may name are not modelled.
- Schedules.ScheduleStore.GenerateSchedule: composes the corrected steps `EstimatesFrom` and `GeneratedFrom`. Where the code as written panics (no estimation reply; no generation reply or a non-200 one), the model falls back or answers 500 and sets `panics`; it does not model the panic itself. The step functions `EstimatesAsWritten` and `GeneratedAsWritten` model it as `Crash`. What `net/http` does after a handler panics (recover, close the connection) is not modelled.
- The bodies of error replies (the messages passed to `http.Error`) are not modelled, only their statuses. Neither are the fixed texts of success replies: "Updated Successfuly" and "Deleted Successfuly" (courses.go:203, :249), "User created/updated/deleted successfully" (users.go:58, :188, :220), "Schedule has been approved" (schedules.go:414) and "Schedule updated successfully" (schedules.go:599).
- Courses.DecodeCourse, Classrooms.DecodeClassroom, Users.DecodeUser: read each record field from the element with exactly its name. The driver also accepts an element whose lower-cased name is the field's name (a `Capacity` set by an update is read as the capacity), and when two elements reach one field the later wins. Neither the lower-case retry nor the order of elements (a `Document` is a map) is modelled. The admin flag is not affected, since its name `isAdmin` is not lower case.

## Findings

| source | as written | input that shows it | evidently intended | confidence | as-written member | corrected member |
|---|---|---|---|---|---|---|
| modules/classrooms/classrooms.go:38-52 | the duplicate check counts classrooms with the same building only | create ECS room 104, then ECS room 105: the second is refused with 409 | refuse only a classroom whose building and room are both stored (the key GetClassroom, UpdateClassroom and DeleteClassroom use) | medium, not executed | Classrooms.SecondRoomOfBuildingRefused | Classrooms.SecondRoomOfBuildingAccepted |
| modules/schedules/schedules.go:224 | after a failed request to the estimation service, `resp.StatusCode` is read from a nil response | estimation service unreachable | fall back to random enrolments, as for a non-200 reply | high, not executed | Schedules.EstimatesAsWrittenDiffers | Schedules.EstimatesFrom |
| modules/schedules/schedules.go:329-335 | an unreachable generation service dereferences a nil response; a non-200 reply builds its error from `resp.Body.Close().Error()`, a method call on a nil error | generation service answers 500 | answer the request with 500 | high, not executed | Schedules.GeneratedAsWrittenDiffers | Schedules.GeneratedFrom |
