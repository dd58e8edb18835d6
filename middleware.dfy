/**
 * The access decision of Users_API_Access_Control: which requests reach the
 * handlers and which are answered 401, 403 or 500. Token verification
 * (VerifyJWT, which reads a secret and the clock) and the user lookup in the
 * users collection are parameters.
 */
module Middleware {
  import opened Text
  import opened Jwt
  import opened Wrappers
  import Http
  import Users

  /** The claims VerifyJWT extracts from a token. */
  datatype JwtInfo = JwtInfo(email: string, isAdmin: bool)

  /** VerifyJWT's three results: ok, the claims, and whether the error is non-nil. */
  datatype Verification = Verification(ok: bool, info: JwtInfo, failed: bool)

  /** FindOne on the users collection by username, decoded. */
  datatype Lookup = Found(email: string) | NoDocuments | LookupFailed

  /** Pass hands the request on to the handler; Deny answers it with a status. */
  datatype Verdict = Pass | Deny(status: nat)

  predicate IsWriteMethod(m: string) {
    m == "POST" || m == "PUT" || m == "PATCH" || m == "DELETE"
  }

  function AccessControl(path: string, verb: string, authorization: string,
                         verify: string -> Verification, lookup: string -> Lookup): (r: Verdict)
    ensures !Contains(path, "/users") ==> r == Pass
    ensures r.Deny? ==> r.status == Http.Unauthorized || r.status == Http.Forbidden || r.status == Http.InternalServerError
    ensures r == Deny(Http.InternalServerError) ==> verb == "GET"
    ensures authorization == "" ==> r == Pass || r == Deny(Http.Unauthorized)
  {
    if !Contains(path, "/users") then Pass
    else if authorization == "" then Deny(Http.Unauthorized)
    else match CleanJWT(authorization)
      case None => Deny(Http.Unauthorized)
      case Some(token) =>
        var v := verify(token);
        if v.failed || !v.ok then Deny(Http.Unauthorized)
        else if IsWriteMethod(verb) && !v.info.isAdmin then Deny(Http.Forbidden)
        else if verb == "GET" && !v.info.isAdmin then
          match lookup(Users.PathUsername(path))
          case NoDocuments => Deny(Http.Forbidden)
          case LookupFailed => Deny(Http.InternalServerError)
          case Found(email) => if email != v.info.email then Deny(Http.Forbidden) else Pass
        else Pass
  }

  /** The caller presented "Bearer t" and t verified without error. */
  predicate Authenticated(authorization: string, verify: string -> Verification) {
    HasPrefix(authorization, BearerPrefix)
    && var v := verify(authorization[|BearerPrefix|..]); v.ok && !v.failed
  }

  /**
   * The policy stated declaratively: outside /users every request passes;
   * inside, the caller must be authenticated, and a non-admin may neither
   * write nor read anyone's record but their own (other methods pass).
   */
  predicate Permitted(path: string, verb: string, authorization: string,
                      verify: string -> Verification, lookup: string -> Lookup)
  {
    !Contains(path, "/users")
    || (Authenticated(authorization, verify)
        && var info := verify(authorization[|BearerPrefix|..]).info;
           info.isAdmin
           || (!IsWriteMethod(verb)
               && (verb == "GET" ==> lookup(Users.PathUsername(path)) == Found(info.email))))
  }

  /** The decision chain lets a request through exactly when the policy permits it. */
  lemma AccessControlMatchesPolicy(path: string, verb: string, authorization: string,
                                   verify: string -> Verification, lookup: string -> Lookup)
    ensures AccessControl(path, verb, authorization, verify, lookup) == Pass
            <==> Permitted(path, verb, authorization, verify, lookup)
  {
    if Contains(path, "/users") && authorization != "" && HasPrefix(authorization, BearerPrefix) {
      assert CleanJWT(authorization) == Some(authorization[|BearerPrefix|..]);
    }
  }

  /** A path without "/users" passes whatever the header. */
  lemma OtherPathsPass(path: string, verb: string, authorization: string,
                       verify: string -> Verification, lookup: string -> Lookup)
    requires !Contains(path, "/users")
    ensures AccessControl(path, verb, authorization, verify, lookup) == Pass
  {
  }

  /** Under /users, a missing header, a header without "Bearer ", or a token that fails verification gives 401. */
  lemma UnauthenticatedGets401(path: string, verb: string, authorization: string,
                               verify: string -> Verification, lookup: string -> Lookup)
    requires Contains(path, "/users")
    requires !Authenticated(authorization, verify)
    ensures AccessControl(path, verb, authorization, verify, lookup) == Deny(Http.Unauthorized)
  {
    if HasPrefix(authorization, BearerPrefix) {
      assert CleanJWT(authorization) == Some(authorization[|BearerPrefix|..]);
    }
  }

  /** An authenticated non-admin is refused every write method with 403. */
  lemma NonAdminWriteGets403(path: string, verb: string, authorization: string,
                             verify: string -> Verification, lookup: string -> Lookup)
    requires Contains(path, "/users") && Authenticated(authorization, verify)
    requires !verify(authorization[|BearerPrefix|..]).info.isAdmin
    requires IsWriteMethod(verb)
    ensures AccessControl(path, verb, authorization, verify, lookup) == Deny(Http.Forbidden)
  {
    assert CleanJWT(authorization) == Some(authorization[|BearerPrefix|..]);
  }

  /**
   * An authenticated non-admin GET: 403 when the named user is missing or
   * has another email, 500 when the lookup fails, and a pass on equal emails.
   */
  lemma NonAdminGet(path: string, authorization: string,
                    verify: string -> Verification, lookup: string -> Lookup)
    requires Contains(path, "/users") && Authenticated(authorization, verify)
    requires !verify(authorization[|BearerPrefix|..]).info.isAdmin
    ensures var d := AccessControl(path, "GET", authorization, verify, lookup);
            var email := verify(authorization[|BearerPrefix|..]).info.email;
            match lookup(Users.PathUsername(path))
            case NoDocuments => d == Deny(Http.Forbidden)
            case LookupFailed => d == Deny(Http.InternalServerError)
            case Found(e) => d == (if e == email then Pass else Deny(Http.Forbidden))
  {
    assert CleanJWT(authorization) == Some(authorization[|BearerPrefix|..]);
  }

  /** An admin with a valid token passes for every method. */
  lemma AdminPasses(path: string, verb: string, authorization: string,
                    verify: string -> Verification, lookup: string -> Lookup)
    requires Authenticated(authorization, verify)
    requires verify(authorization[|BearerPrefix|..]).info.isAdmin
    ensures AccessControl(path, verb, authorization, verify, lookup) == Pass
  {
    assert CleanJWT(authorization) == Some(authorization[|BearerPrefix|..]);
  }
}
