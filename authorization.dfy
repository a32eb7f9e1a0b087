/** aspect/FirebaseAuthorizationAspect.java: the advice around every method
    annotated `@FirebaseAuthorization(roles, statuses)`. It reads the bearer
    token of the current request, has Firebase verify it, checks the role
    and status claims against the annotation, stores the verified token as
    the request attribute "firebaseToken" and only then lets the method run. */
module Authorization {
  import opened Common
  import opened Firebase
  import opened JavaStrings

  const BEARER := "Bearer "
  const TOKEN_ATTRIBUTE := "firebaseToken"
  const UNAUTHORIZED := Unauthorized("Unauthorized")

  /** The annotation's two lists; an empty list admits anyone. */
  datatype Annotation = Annotation(roles: seq<string>, statuses: seq<string>)

  /** The current HTTP request: its Authorization header and its attributes. */
  class Request {
    const authorization: Option<string>
    var attributes: map<string, FirebaseToken>

    constructor (authorization: Option<string>)
      ensures this.authorization == authorization && attributes == map[]
    {
      this.authorization := authorization;
      attributes := map[];
    }
  }

  /** The intercepted call: the annotation found on the method, what the
      method returns when it runs, and a record of its runs. */
  class JoinPoint {
    const annotation: Option<Annotation>
    const result: Result<string>
    var runs: nat
    /** The "firebaseToken" attribute the method saw on its last run. */
    var tokenSeen: Option<FirebaseToken>

    constructor (annotation: Option<Annotation>, result: Result<string>)
      ensures this.annotation == annotation && this.result == result && runs == 0 && tokenSeen == None
    {
      this.annotation := annotation;
      this.result := result;
      runs := 0;
      tokenSeen := None;
    }

    /** `joinPoint.proceed()`. */
    method Proceed(request: Request?) returns (r: Result<string>)
      modifies this
      ensures runs == old(runs) + 1 && r == result
      ensures tokenSeen == if request != null && TOKEN_ATTRIBUTE in request.attributes
                           then Some(request.attributes[TOKEN_ATTRIBUTE]) else None
    {
      runs := runs + 1;
      tokenSeen := if request != null && TOKEN_ATTRIBUTE in request.attributes
                   then Some(request.attributes[TOKEN_ATTRIBUTE]) else None;
      r := result;
    }
  }

  /** The header part of `getTokenFromRequestContext`: the rest of a header
      that starts with "Bearer ", and nothing otherwise. */
  function TokenFromHeader(header: Option<string>): (t: Option<string>)
    ensures t.Some? <==> header.Some? && StartsWith(header.value, BEARER)
    ensures t.Some? ==> BEARER + t.value == header.value
  {
    if header.Some? && StartsWith(header.value, BEARER) then
      assert header.value == header.value[..7] + header.value[7..];
      Some(header.value[7..])
    else None
  }

  /** With no request bound to the thread there is no token. */
  function TokenFromContext(request: Request?): (t: Option<string>)
    reads request
    ensures request == null ==> t == None
    ensures request != null ==> t == TokenFromHeader(request.authorization)
  {
    if request == null then None else TokenFromHeader(request.authorization)
  }

  /** A bearer header gives back exactly the token it was built from. */
  lemma BearerRoundTrip(token: string)
    ensures TokenFromHeader(Some(BEARER + token)) == Some(token)
  {
    assert (BEARER + token)[..7] == BEARER;
  }

  /** `hasRole`: no roles admits anyone; otherwise the "role" claim must be
      one of them. A missing claim is null, which no listed role equals. */
  predicate HasRole(token: FirebaseToken, roles: seq<string>)
    ensures roles == [] ==> HasRole(token, roles)
    ensures "role" !in token.claims ==> (HasRole(token, roles) <==> roles == [])
  {
    roles == [] || ("role" in token.claims && token.claims["role"] in roles)
  }

  /** `hasStatus`, the same test on the "status" claim. */
  predicate HasStatus(token: FirebaseToken, statuses: seq<string>)
    ensures statuses == [] ==> HasStatus(token, statuses)
    ensures "status" !in token.claims ==> (HasStatus(token, statuses) <==> statuses == [])
  {
    statuses == [] || ("status" in token.claims && token.claims["status"] in statuses)
  }

  /** Role matching is string equality: a "ROLE_MODERATOR" requirement
      never admits the "MODERATOR" claim the moderator repository writes. */
  lemma RoleIsExactMatch(token: FirebaseToken)
    requires "role" in token.claims && token.claims["role"] == RoleName(MODERATOR)
    ensures !HasRole(token, ["ROLE_MODERATOR"])
    ensures HasRole(token, [RoleName(MODERATOR)])
  {
  }

  /** The verified token the advice admits for the bearer token found, if any. */
  function Admitted(tokens: map<string, FirebaseToken>, token: Option<string>, a: Annotation): (t: Option<FirebaseToken>)
    ensures t.Some? <==> token.Some? && token.value in tokens
                         && HasRole(tokens[token.value], a.roles) && HasStatus(tokens[token.value], a.statuses)
    ensures t.Some? ==> t.value == tokens[token.value]
  {
    if token.Some? && token.value in tokens
       && HasRole(tokens[token.value], a.roles) && HasStatus(tokens[token.value], a.statuses)
    then Some(tokens[token.value]) else None
  }

  /** `authorize(joinPoint)`. Without the annotation the method just runs.
      With it, the method runs only for an admitted token, and then sees
      that token as the "firebaseToken" attribute; a missing token or a
      failed check throws AuthException and a failed verification throws
      what Firebase threw, and in those cases the method does not run. */
  method Authorize(backend: Backend, request: Request?, jp: JoinPoint) returns (r: Result<string>)
    modifies jp, request
    ensures jp.annotation.None? ==> r == jp.result && jp.runs == old(jp.runs) + 1
    ensures jp.annotation.Some? ==>
              var admitted := Admitted(backend.tokens, old(TokenFromContext(request)), jp.annotation.value);
              (jp.runs == old(jp.runs) + 1 <==> admitted.Some?)
              && (admitted.None? ==> jp.runs == old(jp.runs) && r.Err?)
              && (admitted.Some? ==> r == jp.result && jp.tokenSeen == admitted)
    ensures jp.annotation.Some? && old(TokenFromContext(request)).None? ==> r == Err(UNAUTHORIZED)
    ensures jp.annotation.Some? && old(TokenFromContext(request)).Some? && old(TokenFromContext(request)).value !in backend.tokens ==>
              r == Err(backend.VerifyIdToken(old(TokenFromContext(request)).value).error)
    ensures jp.annotation.Some? && old(TokenFromContext(request)).Some? && old(TokenFromContext(request)).value in backend.tokens
            && Admitted(backend.tokens, old(TokenFromContext(request)), jp.annotation.value).None? ==>
              r == Err(UNAUTHORIZED)
    ensures request != null && (jp.annotation.None? || Admitted(backend.tokens, old(TokenFromContext(request)), jp.annotation.value).None?) ==>
              request.attributes == old(request.attributes)
  {
    if jp.annotation.None? {
      r := jp.Proceed(request);
      return;
    }
    var annotation := jp.annotation.value;
    var token := TokenFromContext(request);
    if token.None? {
      return Err(UNAUTHORIZED);
    }
    var verified := backend.VerifyIdToken(token.value);
    if verified.Err? {
      return Err(verified.error);
    }
    var firebaseToken := verified.value;
    if !HasRole(firebaseToken, annotation.roles) || !HasStatus(firebaseToken, annotation.statuses) {
      return Err(UNAUTHORIZED);
    }
    request.attributes := request.attributes[TOKEN_ATTRIBUTE := firebaseToken];
    r := jp.Proceed(request);
  }
}
