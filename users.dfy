/**
 * The user handlers (modules/users/users.go) over the users collection,
 * keyed by username: the admin flag is forced off on creation and can
 * never be set through an update.
 */
module Users {
  import opened Wrappers
  import opened Text
  import opened Store
  import opened Seqs
  import Http

  datatype User = User(
    username: string,
    email: string,
    password: string,
    firstname: string,
    lastname: string,
    isAdmin: bool,
    preferences: map<string, string>,
    qualifications: seq<string>)

  /** The document InsertOne stores for a user, under its BSON field names. */
  function UserDoc(u: User): Document {
    map[
      "username" := JStr(u.username),
      "email" := JStr(u.email),
      "password" := JStr(u.password),
      "firstname" := JStr(u.firstname),
      "lastname" := JStr(u.lastname),
      "isAdmin" := JBool(u.isAdmin),
      "preferences" := StrMap(u.preferences),
      "qualifications" := StrArray(u.qualifications)]
  }

  /** The JSON object a handler encodes for a user: the admin flag is never written. */
  function UserJson(u: User): (r: Document)
    ensures r.Keys == {"username", "email", "password", "firstname", "lastname", "preferences", "qualifications"}
    ensures "isAdmin" !in r && r["username"] == JStr(u.username)
  {
    map[
      "username" := JStr(u.username),
      "email" := JStr(u.email),
      "password" := JStr(u.password),
      "firstname" := JStr(u.firstname),
      "lastname" := JStr(u.lastname),
      "preferences" := StrMap(u.preferences),
      "qualifications" := StrArray(u.qualifications)]
  }

  /**
   * The User record FindOne(...).Decode fills from a stored document:
   * fields outside the record are ignored, a missing one keeps its zero
   * value, and one of the wrong kind makes the decode fail.
   */
  function DecodeUser(d: Document): Option<User> {
    match (DecodeString(FieldOf(d, "username")), DecodeString(FieldOf(d, "email")),
           DecodeString(FieldOf(d, "password")), DecodeString(FieldOf(d, "firstname")),
           DecodeString(FieldOf(d, "lastname")), DecodeBool(FieldOf(d, "isAdmin")),
           DecodeStringMap(FieldOf(d, "preferences")), DecodeStrings(FieldOf(d, "qualifications")))
    case (Some(n), Some(e), Some(pw), Some(f), Some(l), Some(a), Some(p), Some(q)) => Some(User(n, e, pw, f, l, a, p, q))
    case _ => None
  }

  /** A stored user decodes back to itself. */
  lemma DecodeStoredUser(u: User)
    ensures DecodeUser(UserDoc(u)) == Some(u)
  {
    DecodeStrMap(u.preferences);
    DecodeStrArray(u.qualifications);
  }

  /** Every stored user decodes, as CreateUser keeps it. */
  ghost predicate AllUsersDecode(docs: seq<Document>) {
    forall j :: 0 <= j < |docs| ==> DecodeUser(docs[j]).Some?
  }

  /** A stored document whose admin flag, as the User record decodes it, is set. */
  predicate IsAdminDoc(d: Document) {
    DecodeBool(FieldOf(d, "isAdmin")) == Some(true)
  }

  function UsernameFilter(username: string): Filter {
    map["username" := JStr(username)]
  }

  /** The username a /users/{username} path names: prefix removed, then surrounding white space. */
  function PathUsername(path: string): (r: string)
    ensures r == [] || (!IsSpace(r[0]) && !IsSpace(r[|r| - 1]))
    ensures |r| <= |path|
  {
    TrimSpace(TrimPrefix(path, "/users/"))
  }

  /** A username without surrounding white space is read back from its path. */
  lemma PathUsernameOf(u: string)
    requires u == [] || (!IsSpace(u[0]) && !IsSpace(u[|u| - 1]))
    ensures PathUsername("/users/" + u) == u
  {
    assert ("/users/" + u)[..7] == "/users/";
    assert TrimPrefix("/users/" + u, "/users/") == u;
    assert TrimLeft(u) == u;
  }

  /**
   * FindOne on the username followed by Decode: the first record with that
   * username, or None when there is none or it does not decode.
   */
  function FindUser(docs: seq<Document>, username: string): (r: Option<User>)
    ensures r.Some? ==> FindFirst(docs, UsernameFilter(username)).Some? && r.value.username == username
    ensures FindFirst(docs, UsernameFilter(username)).None? ==> r.None?
  {
    match FindFirst(docs, UsernameFilter(username))
    case None => None
    case Some(i) =>
      MatchesSingle(docs[i], "username", JStr(username));
      DecodeUser(docs[i])
  }

  /** userExists: FindOne by username and its Decode both succeed. */
  function UserExists(docs: seq<Document>, username: string): (r: bool)
    ensures r ==> exists j :: 0 <= j < |docs| && Matches(docs[j], UsernameFilter(username))
    ensures AllUsersDecode(docs) ==> (r <==> exists j :: 0 <= j < |docs| && Matches(docs[j], UsernameFilter(username)))
  {
    FindUser(docs, username).Some?
  }

  /**
   * POST /users: 400 for an undecodable body; otherwise the user is stored
   * with the admin flag off whatever the body said. There is no duplicate
   * check: every accepted call adds exactly one record.
   */
  method CreateUser(coll: Collection, body: Option<User>) returns (status: nat)
    modifies coll
    ensures status == Http.BadRequest <==> body.None?
    ensures status == Http.OK <==> body.Some?
    ensures body.None? ==> coll.docs == old(coll.docs)
    ensures body.Some? ==> coll.docs == old(coll.docs) + [UserDoc(body.value.(isAdmin := false))]
    ensures body.Some? ==> !IsAdminDoc(coll.docs[|coll.docs| - 1])
    ensures AllUsersDecode(old(coll.docs)) ==> AllUsersDecode(coll.docs)
  {
    if body.None? {
      return Http.BadRequest;
    }
    var user := body.value.(isAdmin := false);
    DecodeStoredUser(user);
    coll.InsertOne(UserDoc(user));
    return Http.OK;
  }

  /**
   * GET /users/{username}: 404 when no record has that username; otherwise
   * the first one is decoded, 500 when that fails, and the record is encoded
   * without its admin flag.
   */
  function GetUser(docs: seq<Document>, path: string): (r: Http.Reply<Document>)
    ensures r.status == Http.NotFound <==> FindFirst(docs, UsernameFilter(PathUsername(path))).None?
    ensures FindFirst(docs, UsernameFilter(PathUsername(path))).Some? && FindUser(docs, PathUsername(path)).None?
            ==> r == Http.Reply(Http.InternalServerError, None)
    ensures FindUser(docs, PathUsername(path)).Some?
            ==> r == Http.Reply(Http.OK, Some(UserJson(FindUser(docs, PathUsername(path)).value)))
    ensures r.body.Some? ==> r.status == Http.OK && r.body.value["username"] == JStr(PathUsername(path))
    ensures r.body.Some? ==> "isAdmin" !in r.body.value
  {
    var username := PathUsername(path);
    match FindFirst(docs, UsernameFilter(username))
    case None => Http.Reply(Http.NotFound, None)
    case Some(i) =>
      match FindUser(docs, username)
      case None => Http.Reply(Http.InternalServerError, None)
      case Some(u) => Http.Reply(Http.OK, Some(UserJson(u)))
  }

  /** When every stored user decodes, GetUser answers 200 exactly when the user exists, and 404 otherwise. */
  lemma GetStoredUser(docs: seq<Document>, path: string)
    requires AllUsersDecode(docs)
    ensures GetUser(docs, path).status == Http.OK <==> UserExists(docs, PathUsername(path))
    ensures GetUser(docs, path).status != Http.OK ==> GetUser(docs, path) == Http.Reply(Http.NotFound, None)
  {
  }

  /** The body names the admin flag with a non-null value (requestBody["isAdmin"] != nil). */
  predicate SetsAdmin(body: Document) {
    "isAdmin" in body && body["isAdmin"] != JNull
  }

  /**
   * PUT /users/{username}: 404 for an unknown user, 400 for an undecodable
   * body, 500 for a body that sets isAdmin; otherwise "$set" the body on
   * that user's record. No accepted update grants administrator rights.
   */
  method UpdateUser(coll: Collection, path: string, body: Option<Document>) returns (status: nat)
    modifies coll
    ensures !UserExists(old(coll.docs), PathUsername(path)) ==> status == Http.NotFound
    ensures UserExists(old(coll.docs), PathUsername(path)) && body.None? ==> status == Http.BadRequest
    ensures UserExists(old(coll.docs), PathUsername(path)) && body.Some? && SetsAdmin(body.value)
            ==> status == Http.InternalServerError
    ensures UserExists(old(coll.docs), PathUsername(path)) && body.Some? && !SetsAdmin(body.value) ==> status == Http.OK
    ensures status != Http.OK ==> coll.docs == old(coll.docs)
    ensures status == Http.OK ==>
      body.Some? && coll.docs == SetFirst(old(coll.docs), UsernameFilter(PathUsername(path)), body.value)
    ensures |coll.docs| == |old(coll.docs)|
    ensures forall j :: 0 <= j < |coll.docs| && IsAdminDoc(coll.docs[j]) ==> IsAdminDoc(old(coll.docs)[j])
  {
    var username := PathUsername(path);
    if !UserExists(coll.docs, username) {
      return Http.NotFound;
    }
    if body.None? {
      return Http.BadRequest;
    }
    if SetsAdmin(body.value) {
      return Http.InternalServerError;
    }
    coll.UpdateOne(UsernameFilter(username), body.value);
    return Http.OK;
  }

  /** DELETE /users/{username}: 404 for an unknown user, otherwise its first record is removed. */
  method DeleteUser(coll: Collection, path: string) returns (status: nat)
    modifies coll
    ensures status == Http.NotFound <==> !UserExists(old(coll.docs), PathUsername(path))
    ensures status != Http.NotFound ==> status == Http.OK
    ensures status == Http.NotFound ==> coll.docs == old(coll.docs)
    ensures status == Http.OK ==> coll.docs == DeleteFirst(old(coll.docs), UsernameFilter(PathUsername(path)))
  {
    var username := PathUsername(path);
    if !UserExists(coll.docs, username) {
      return Http.NotFound;
    }
    coll.DeleteOne(UsernameFilter(username));
    return Http.OK;
  }

  /** Two creations of the same user both succeed and leave two records with that username. */
  method DuplicateUsersAccepted(u: User) returns (first: nat, second: nat, records: nat)
    ensures first == Http.OK && second == Http.OK && records == 2
  {
    var coll := new Collection();
    first := CreateUser(coll, Some(u));
    second := CreateUser(coll, Some(u));
    var f := UsernameFilter(u.username);
    var d := UserDoc(u.(isAdmin := false));
    MatchesSingle(d, "username", JStr(u.username));
    CountAfterAppend([], d, Matching(f));
    CountAfterAppend([d], d, Matching(f));
    assert coll.docs == [d] + [d];
    records := CountMatching(coll.docs, f);
  }
}
