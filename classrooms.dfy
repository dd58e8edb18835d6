/**
 * The classroom handlers (modules/classrooms/classrooms.go) over the
 * classrooms collection. Get, update and delete key on (building, room);
 * creation checks for duplicates on the building alone.
 */
module Classrooms {
  import opened Wrappers
  import opened Store
  import opened Seqs
  import Text
  import Http

  datatype Classroom = Classroom(building: string, capacity: int, room: string)

  /**
   * The document InsertOne stores for a classroom. Its BSON and JSON field
   * names coincide, so this is also the JSON object a handler encodes.
   */
  function ClassroomDoc(c: Classroom): (r: Document)
    ensures r.Keys == {"building", "capacity", "room"}
  {
    map["building" := JStr(c.building), "capacity" := JNum(c.capacity), "room" := JStr(c.room)]
  }

  /**
   * The Classroom record FindOne(...).Decode fills from a stored document:
   * fields outside the record are ignored, a missing one keeps its zero
   * value, and one of the wrong kind makes the decode fail.
   */
  function DecodeClassroom(d: Document): Option<Classroom> {
    match (DecodeString(FieldOf(d, "building")), DecodeInt(FieldOf(d, "capacity")), DecodeString(FieldOf(d, "room")))
    case (Some(b), Some(n), Some(r)) => Some(Classroom(b, n, r))
    case _ => None
  }

  /** A stored classroom whose capacity fits a Go int decodes back to itself. */
  lemma DecodeStoredClassroom(c: Classroom)
    requires Text.MinInt64 <= c.capacity <= Text.MaxInt64
    ensures DecodeClassroom(ClassroomDoc(c)) == Some(c)
  {
  }

  function BuildingFilter(building: string): Filter {
    map["building" := JStr(building)]
  }

  function RoomFilter(building: string, room: string): Filter {
    map["building" := JStr(building), "room" := JStr(room)]
  }

  /** classroomExists: the count of classrooms with this building and room is positive. */
  function ClassroomExists(docs: seq<Document>, building: string, room: string): (r: bool)
    ensures r <==> exists j :: 0 <= j < |docs| && Matches(docs[j], RoomFilter(building, room))
  {
    CountPositiveIffFound(docs, Matching(RoomFilter(building, room)));
    CountMatching(docs, RoomFilter(building, room)) > 0
  }

  /** No two stored classrooms share a building (what CreateClassroom alone maintains). */
  ghost predicate UniqueBuildings(docs: seq<Document>) {
    forall b :: CountMatching(docs, BuildingFilter(b)) <= 1
  }

  /**
   * POST /classrooms: 400 for an undecodable body, 409 when any classroom
   * of the same building exists whatever its room, otherwise the decoded
   * classroom is inserted.
   */
  method CreateClassroom(coll: Collection, body: Option<Classroom>) returns (status: nat)
    modifies coll
    ensures status == Http.BadRequest <==> body.None?
    ensures body.Some? ==>
      (status == Http.Conflict <==> exists j :: 0 <= j < |old(coll.docs)| && Matches(old(coll.docs)[j], BuildingFilter(body.value.building)))
    ensures status == Http.OK <==> status != Http.BadRequest && status != Http.Conflict
    ensures status != Http.OK ==> coll.docs == old(coll.docs)
    ensures status == Http.OK ==> coll.docs == old(coll.docs) + [ClassroomDoc(body.value)]
    ensures UniqueBuildings(old(coll.docs)) ==> UniqueBuildings(coll.docs)
  {
    if body.None? {
      return Http.BadRequest;
    }
    var room := body.value;
    CountPositiveIffFound(coll.docs, Matching(BuildingFilter(room.building)));
    var count := CountMatching(coll.docs, BuildingFilter(room.building));
    if count > 0 {
      return Http.Conflict;
    }
    forall b ensures CountMatching(coll.docs + [ClassroomDoc(room)], BuildingFilter(b))
                     == CountMatching(coll.docs, BuildingFilter(b)) + (if b == room.building then 1 else 0) {
      CountAfterAppend(coll.docs, ClassroomDoc(room), Matching(BuildingFilter(b)));
      MatchesSingle(ClassroomDoc(room), "building", JStr(b));
    }
    coll.InsertOne(ClassroomDoc(room));
    return Http.OK;
  }

  /**
   * GET /classrooms/{building}/{room}: 404 when no classroom has exactly that
   * building and room; otherwise the first one is decoded into the record,
   * 500 when that fails, and the record is encoded. A missing route variable
   * returns without writing, which the server answers with an empty 200.
   */
  function GetClassroom(docs: seq<Document>, building: Option<string>, room: Option<string>): (r: Http.Reply<Document>)
    ensures building.None? || room.None? ==> r == Http.Reply(Http.OK, None)
    ensures building.Some? && room.Some? ==>
      (r.status == Http.NotFound <==> !ClassroomExists(docs, building.value, room.value))
    ensures building.Some? && room.Some? && FindFirst(docs, RoomFilter(building.value, room.value)).Some? ==>
      var d := docs[FindFirst(docs, RoomFilter(building.value, room.value)).value];
      && (DecodeClassroom(d).None? ==> r == Http.Reply(Http.InternalServerError, None))
      && (DecodeClassroom(d).Some? ==> r == Http.Reply(Http.OK, Some(ClassroomDoc(DecodeClassroom(d).value))))
    ensures r.body.Some? ==> r.body.value.Keys == {"building", "capacity", "room"}
    ensures building.Some? && room.Some? && r.body.Some? ==>
      r.body.value["building"] == JStr(building.value) && r.body.value["room"] == JStr(room.value)
  {
    if building.None? || room.None? then Http.Reply(Http.OK, None)
    else match FindFirst(docs, RoomFilter(building.value, room.value))
      case None => Http.Reply(Http.NotFound, None)
      case Some(i) =>
        MatchesPair(docs[i], "building", JStr(building.value), "room", JStr(room.value));
        match DecodeClassroom(docs[i])
        case None => Http.Reply(Http.InternalServerError, None)
        case Some(c) => Http.Reply(Http.OK, Some(ClassroomDoc(c)))
  }

  /**
   * PUT /classrooms/{building}/{room}: 500 when no such classroom, 400 for an
   * undecodable body, otherwise "$set" the body's fields on that classroom.
   */
  method UpdateClassroom(coll: Collection, building: Option<string>, room: Option<string>, body: Option<Document>)
    returns (status: nat)
    modifies coll
    ensures building.None? || room.None? ==> status == Http.OK && coll.docs == old(coll.docs)
    ensures building.Some? && room.Some? && !ClassroomExists(old(coll.docs), building.value, room.value)
            ==> status == Http.InternalServerError && coll.docs == old(coll.docs)
    ensures building.Some? && room.Some? && ClassroomExists(old(coll.docs), building.value, room.value) && body.None?
            ==> status == Http.BadRequest && coll.docs == old(coll.docs)
    ensures building.Some? && room.Some? && ClassroomExists(old(coll.docs), building.value, room.value) && body.Some?
            ==> status == Http.OK && coll.docs == SetFirst(old(coll.docs), RoomFilter(building.value, room.value), body.value)
  {
    if building.None? || room.None? {
      return Http.OK;
    }
    if !ClassroomExists(coll.docs, building.value, room.value) {
      return Http.InternalServerError;
    }
    if body.None? {
      return Http.BadRequest;
    }
    coll.UpdateOne(RoomFilter(building.value, room.value), body.value);
    return Http.OK;
  }

  /**
   * After an update whose body keeps the building and room, GetClassroom on
   * the same key answers 200 exactly when the updated document still decodes
   * (a capacity of the wrong kind gives 500), replies with the record's
   * three fields only, and reads back a capacity the body sets as a number.
   */
  lemma UpdateThenGet(docs: seq<Document>, building: string, room: string, body: Document)
    requires ClassroomExists(docs, building, room)
    requires "building" in body ==> body["building"] == JStr(building)
    requires "room" in body ==> body["room"] == JStr(room)
    ensures var updated := docs[FindFirst(docs, RoomFilter(building, room)).value] + body;
            var r := GetClassroom(SetFirst(docs, RoomFilter(building, room), body), Some(building), Some(room));
            && (r.status == Http.OK <==> DecodeClassroom(updated).Some?)
            && (r.status != Http.OK ==> r == Http.Reply(Http.InternalServerError, None))
            && ("capacity" in body && DecodeInt(body["capacity"]).None? ==> r.status == Http.InternalServerError)
            && (r.status == Http.OK ==>
                 r.body == Some(ClassroomDoc(Classroom(building, DecodeInt(FieldOf(updated, "capacity")).value, room))))
            && ("capacity" in body && body["capacity"].JNum? && r.status == Http.OK ==>
                 r.body.value["capacity"] == body["capacity"])
  {
    var f := RoomFilter(building, room);
    var i := FindFirst(docs, f).value;
    var after := SetFirst(docs, f, body);
    assert Matches(after[i], f);
    FirstIndexIs(after, Matching(f), i);
    MatchesPair(after[i], "building", JStr(building), "room", JStr(room));
  }

  /**
   * DELETE /classrooms/{building}/{room}: 500 when no such classroom,
   * otherwise the first classroom with that key is removed and the others stay.
   */
  method DeleteClassroom(coll: Collection, building: Option<string>, room: Option<string>) returns (status: nat)
    modifies coll
    ensures building.None? || room.None? ==> status == Http.OK && coll.docs == old(coll.docs)
    ensures building.Some? && room.Some? && !ClassroomExists(old(coll.docs), building.value, room.value)
            ==> status == Http.InternalServerError && coll.docs == old(coll.docs)
    ensures building.Some? && room.Some? && ClassroomExists(old(coll.docs), building.value, room.value)
            ==> status == Http.OK && coll.docs == DeleteFirst(old(coll.docs), RoomFilter(building.value, room.value))
  {
    if building.None? || room.None? {
      return Http.OK;
    }
    if !ClassroomExists(coll.docs, building.value, room.value) {
      return Http.InternalServerError;
    }
    coll.DeleteOne(RoomFilter(building.value, room.value));
    return Http.OK;
  }

  /** No two stored classrooms share a (building, room) key. */
  ghost predicate UniqueRooms(docs: seq<Document>) {
    forall b, r :: CountMatching(docs, RoomFilter(b, r)) <= 1
  }

  /**
   * Creation with the duplicate check on the composite (building, room) key
   * that get, update and delete use: 409 exactly when that key is stored.
   */
  method CreateClassroomByRoom(coll: Collection, body: Option<Classroom>) returns (status: nat)
    modifies coll
    ensures status == Http.BadRequest <==> body.None?
    ensures body.Some? ==>
      (status == Http.Conflict <==> ClassroomExists(old(coll.docs), body.value.building, body.value.room))
    ensures status == Http.OK <==> status != Http.BadRequest && status != Http.Conflict
    ensures status != Http.OK ==> coll.docs == old(coll.docs)
    ensures status == Http.OK ==> coll.docs == old(coll.docs) + [ClassroomDoc(body.value)]
    ensures UniqueRooms(old(coll.docs)) ==> UniqueRooms(coll.docs)
  {
    if body.None? {
      return Http.BadRequest;
    }
    var c := body.value;
    if ClassroomExists(coll.docs, c.building, c.room) {
      return Http.Conflict;
    }
    CountPositiveIffFound(coll.docs, Matching(RoomFilter(c.building, c.room)));
    forall b, r ensures CountMatching(coll.docs + [ClassroomDoc(c)], RoomFilter(b, r))
                        == CountMatching(coll.docs, RoomFilter(b, r)) + (if b == c.building && r == c.room then 1 else 0) {
      CountAfterAppend(coll.docs, ClassroomDoc(c), Matching(RoomFilter(b, r)));
      MatchesPair(ClassroomDoc(c), "building", JStr(b), "room", JStr(r));
    }
    coll.InsertOne(ClassroomDoc(c));
    return Http.OK;
  }

  /** With the building-only check a second room of the same building is refused. */
  method SecondRoomOfBuildingRefused() returns (first: nat, second: nat)
    ensures first == Http.OK && second == Http.Conflict
  {
    var coll := new Collection();
    first := CreateClassroom(coll, Some(Classroom("ECS", 120, "104")));
    MatchesSingle(coll.docs[0], "building", JStr("ECS"));
    second := CreateClassroom(coll, Some(Classroom("ECS", 60, "105")));
  }

  /**
   * With the composite-key check the second room is accepted and only the
   * same (building, room) twice is refused.
   */
  method SecondRoomOfBuildingAccepted() returns (first: nat, second: nat, again: nat)
    ensures first == Http.OK && second == Http.OK && again == Http.Conflict
  {
    var coll := new Collection();
    first := CreateClassroomByRoom(coll, Some(Classroom("ECS", 120, "104")));
    MatchesPair(coll.docs[0], "building", JStr("ECS"), "room", JStr("105"));
    second := CreateClassroomByRoom(coll, Some(Classroom("ECS", 60, "105")));
    MatchesPair(coll.docs[0], "building", JStr("ECS"), "room", JStr("104"));
    again := CreateClassroomByRoom(coll, Some(Classroom("ECS", 120, "104")));
  }

  /** The update the classroom test performs: capacity 100 to 98, then read back. */
  method UpdateCapacityReadBack() returns (created: nat, updated: nat, got: Http.Reply<Document>)
    ensures created == Http.OK && updated == Http.OK
    ensures got.status == Http.OK && got.body.Some? && "capacity" in got.body.value
    ensures got.body.value["capacity"] == JNum(98)
  {
    var coll := new Collection();
    created := CreateClassroom(coll, Some(Classroom("Test6", 100, "4")));
    MatchesPair(ClassroomDoc(Classroom("Test6", 100, "4")), "building", JStr("Test6"), "room", JStr("4"));
    var body := ClassroomDoc(Classroom("Test6", 98, "4"));
    updated := UpdateClassroom(coll, Some("Test6"), Some("4"), Some(body));
    UpdateThenGet([ClassroomDoc(Classroom("Test6", 100, "4"))], "Test6", "4", body);
    assert ClassroomDoc(Classroom("Test6", 100, "4")) + body == body;
    DecodeStoredClassroom(Classroom("Test6", 98, "4"));
    got := GetClassroom(coll.docs, Some("Test6"), Some("4"));
  }
}
