/** Types shared by every layer of the user directory: optional (nullable) values,
    results that carry the Java exception a call would throw, and the two
    enumerations `UserStatus` and `UserRole` with their string forms. */
module Common {

  /** A Java reference that may be null. */
  datatype Option<+T> = None | Some(value: T)

  type Uid = string

  /** Milliseconds since the epoch; the model never looks inside a timestamp. */
  type Timestamp = int

  /** The exceptions the modelled code throws or lets escape. */
  datatype Error =
    | NotFound(message: string)         // dev.mikita.userservice.exception.NotFoundException
    | Unauthorized(message: string)     // jakarta.security.auth.message.AuthException
    | FirebaseAuth(message: string)     // com.google.firebase.auth.FirebaseAuthException
    | IllegalState(message: string)
    | IllegalArgument(message: string)
    | Runtime(message: string)          // a bare java.lang.RuntimeException
    | IO(message: string)               // java.io.IOException
    | BadRequest(message: string)       // jakarta.ws.rs.BadRequestException
    | Execution(message: string)        // a failed Firestore future (ExecutionException)
    | Validation(fieldMessages: seq<string>)  // MethodArgumentNotValidException
    | NullPointer                       // a dereference of null
    | ClassCast
    | IndexOutOfBounds

  /** The value a Java call returns, or the exception it throws. */
  datatype Result<+T> = Ok(value: T) | Err(error: Error) {
    predicate IsFailure() { Err? }
    function PropagateFailure<U>(): Result<U> requires Err? { Err(error) }
    function Extract(): T requires Ok? { value }
  }

  /** A call that returns nothing, or the exception it throws. */
  datatype Outcome = Pass | Fail(error: Error) {
    predicate IsFailure() { Fail? }
    function PropagateFailure(): Outcome requires Fail? { this }
  }

  /** Sort direction of a Firestore query (Query.Direction). */
  datatype Direction = ASCENDING | DESCENDING

  /** entity/UserStatus.java */
  datatype UserStatus = ACTIVE | BANNED | DELETED

  function StatusName(s: UserStatus): string {
    match s
    case ACTIVE => "ACTIVE"
    case BANNED => "BANNED"
    case DELETED => "DELETED"
  }

  /** `UserStatus.valueOf(name)`: null throws NullPointerException, an unknown
      name throws IllegalArgumentException. */
  function StatusValueOf(name: Option<string>): (r: Result<UserStatus>)
    ensures r.Ok? ==> name == Some(StatusName(r.value))
    ensures name.None? ==> r == Err(NullPointer)
  {
    match name
    case None => Err(NullPointer)
    case Some(n) =>
      if n == "ACTIVE" then Ok(ACTIVE)
      else if n == "BANNED" then Ok(BANNED)
      else if n == "DELETED" then Ok(DELETED)
      else Err(IllegalArgument("No enum constant dev.mikita.userservice.entity.UserStatus." + n))
  }

  /** Reading back a status name gives the status: the document's "status"
      field survives a write/read cycle. */
  lemma StatusRoundTrip(s: UserStatus)
    ensures StatusValueOf(Some(StatusName(s))) == Ok(s)
  {
  }

  /** entity/UserRole.java */
  datatype UserRole = ADMIN | MODERATOR | RESIDENT | SERVICE | EMPLOYEE | ANALYST

  function RoleName(r: UserRole): string {
    match r
    case ADMIN => "ADMIN"
    case MODERATOR => "MODERATOR"
    case RESIDENT => "RESIDENT"
    case SERVICE => "SERVICE"
    case EMPLOYEE => "EMPLOYEE"
    case ANALYST => "ANALYST"
  }

  /** `UserRole.valueOf(name)`. */
  function RoleValueOf(name: string): (r: Result<UserRole>)
    ensures r.Ok? ==> name == RoleName(r.value)
  {
    if name == "ADMIN" then Ok(ADMIN)
    else if name == "MODERATOR" then Ok(MODERATOR)
    else if name == "RESIDENT" then Ok(RESIDENT)
    else if name == "SERVICE" then Ok(SERVICE)
    else if name == "EMPLOYEE" then Ok(EMPLOYEE)
    else if name == "ANALYST" then Ok(ANALYST)
    else Err(IllegalArgument("No enum constant dev.mikita.userservice.entity.UserRole." + name))
  }

  lemma RoleRoundTrip(r: UserRole)
    ensures RoleValueOf(RoleName(r)) == Ok(r)
  {
  }

  /** Java's `String.valueOf` as used by `+`: a null operand prints as "null". */
  function JavaStr(s: Option<string>): string {
    match s
    case None => "null"
    case Some(v) => v
  }

  /** `a + " " + b` on two Java strings, each possibly null. */
  function FullName(first: Option<string>, last: Option<string>): string {
    JavaStr(first) + " " + JavaStr(last)
  }

  /** Keep `src` when it is non-null, else `dst`: ModelMapper with
      `Conditions.isNotNull()` applied to one property. */
  function Pick<T>(src: Option<T>, dst: Option<T>): (r: Option<T>)
    ensures src.Some? ==> r == src
    ensures src.None? ==> r == dst
  {
    if src.Some? then src else dst
  }

  /** `a.equals(b)` on two Java strings: a null receiver throws, a null
      argument equals nothing. */
  function JavaEquals(a: Option<string>, b: Option<string>): (r: Result<bool>)
    ensures r.Err? <==> a.None?
    ensures r.Err? ==> r.error == NullPointer
    ensures r.Ok? ==> (r.value <==> a == b)
  {
    if a.None? then Err(NullPointer) else Ok(a == b)
  }
}
