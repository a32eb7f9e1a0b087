/** repository/ModeratorRepository.java: moderators are identity records
    only, with role and status claims and no document. */
module ModeratorRepository {
  import opened Common
  import opened Firebase
  import opened Entities
  import opened JavaStrings

  /** The role claim `find` accepts. */
  const FIND_ROLE := "ROLE_MODERATOR"

  /** The claims `persist` and `update` write: `UserRole.MODERATOR` and
      `UserStatus.ACTIVE` by name. */
  const NEW_CLAIMS: map<string, string> := map["role" := RoleName(MODERATOR), "status" := StatusName(ACTIVE)]

  /** `UserRole.valueOf(role.replace("ROLE_", "").toUpperCase())`. */
  function RoleOfClaim(role: string): Result<UserRole> {
    RoleValueOf(ToUpper(Replace(role, "ROLE_", "")))
  }

  lemma ReplaceModerator()
    ensures Replace(FIND_ROLE, "ROLE_", "") == RoleName(MODERATOR)
    ensures Replace(RoleName(MODERATOR), "ROLE_", "") == RoleName(MODERATOR)
  {
    var name := RoleName(MODERATOR);
    assert '_' !in name;
    ReplaceAbsent(name, "ROLE_", "");
    assert FIND_ROLE[..5] == "ROLE_" && FIND_ROLE[5..] == name;
  }

  lemma UpperModerator()
    ensures ToUpper(RoleName(MODERATOR)) == RoleName(MODERATOR)
  {
    var name := RoleName(MODERATOR);
    assert forall i :: 0 <= i < |name| ==> !('a' <= name[i] <= 'z');
    ToUpperOfUpper(name);
  }

  /** Both spellings of the moderator role parse to MODERATOR. */
  lemma RoleOfModeratorClaims()
    ensures RoleOfClaim(FIND_ROLE) == Ok(MODERATOR)
    ensures RoleOfClaim(RoleName(MODERATOR)) == Ok(MODERATOR)
  {
    ReplaceModerator();
    UpperModerator();
  }

  /** The body of `find(uid)` once the record is known to carry `accepted`
      as its role claim. */
  function MakeModerator(uid: Uid, rec: UserRecord): (r: Result<Moderator>)
    requires "role" in rec.claims
    ensures r.Ok? <==> "status" in rec.claims && StatusValueOf(Some(rec.claims["status"])).Ok?
                       && RoleOfClaim(rec.claims["role"]).Ok?
    ensures r.Ok? ==> r.value.uid == Some(uid) && r.value.email == rec.email && r.value.photo == rec.photoUrl
                      && r.value.password.None? && r.value.role == Some(RoleOfClaim(rec.claims["role"]).value)
                      && r.value.status.Some? && rec.claims["status"] == StatusName(r.value.status.value)
    ensures "status" !in rec.claims ==> r == Err(NullPointer)
  {
    var statusName :- ClaimString(rec.claims, "status");
    var status :- StatusValueOf(Some(statusName));
    var role :- RoleOfClaim(rec.claims["role"]);
    Ok(Moderator(Some(uid), rec.email, None, rec.photoUrl, Some(role), Some(status)))
  }

  /** `find(uid)`, comparing the role claim with `accepted`. */
  function FindAs(users: map<Uid, UserRecord>, uid: Option<Uid>, accepted: string): (r: Result<Moderator>)
    ensures r.Ok? ==> uid.Some? && uid.value in users && HasRoleClaim(users[uid.value].claims, accepted) == Ok(true)
    ensures r.Ok? ==> var rec := users[uid.value];
                      r.value.uid == uid && r.value.email == rec.email && r.value.photo == rec.photoUrl
                      && r.value.password.None? && r.value.status.Some?
                      && "status" in rec.claims && rec.claims["status"] == StatusName(r.value.status.value)
    ensures GetUserIn(users, uid).Err? ==> r == Err(GetUserIn(users, uid).error)
    ensures GetUserIn(users, uid).Ok? && HasRoleClaim(users[uid.value].claims, accepted) == Ok(false) ==>
              r == Err(EntityNotFound("Moderator", uid))
    ensures GetUserIn(users, uid).Ok? && HasRoleClaim(users[uid.value].claims, accepted) == Ok(true) ==>
              ("status" !in users[uid.value].claims ==> r == Err(NullPointer))
  {
    var rec :- GetUserIn(users, uid);
    var isModerator :- HasRoleClaim(rec.claims, accepted);
    if !isModerator then Err(EntityNotFound("Moderator", uid))
    else MakeModerator(uid.value, rec)
  }

  /** `find(uid)` as written: only a record whose role claim is
      "ROLE_MODERATOR" is a moderator, and its role then reads as MODERATOR. */
  function Find(users: map<Uid, UserRecord>, uid: Option<Uid>): (r: Result<Moderator>)
    ensures r.Ok? ==> r.value.role == Some(MODERATOR)
    ensures r.Ok? <==> GetUserIn(users, uid).Ok? && HasRoleClaim(users[uid.value].claims, FIND_ROLE) == Ok(true)
                       && "status" in users[uid.value].claims
                       && StatusValueOf(Some(users[uid.value].claims["status"])).Ok?
  {
    RoleOfModeratorClaims();
    FindAs(users, uid, FIND_ROLE)
  }

  /** `find(uid)` compared with the role name `persist` stores. */
  function FindStored(users: map<Uid, UserRecord>, uid: Option<Uid>): (r: Result<Moderator>)
    ensures r.Ok? ==> r.value.role == Some(MODERATOR)
    ensures r.Ok? <==> GetUserIn(users, uid).Ok? && HasRoleClaim(users[uid.value].claims, RoleName(MODERATOR)) == Ok(true)
                       && "status" in users[uid.value].claims
                       && StatusValueOf(Some(users[uid.value].claims["status"])).Ok?
  {
    RoleOfModeratorClaims();
    FindAs(users, uid, RoleName(MODERATOR))
  }

  // ---------------------------------------------------------------------
  // persist

  /** The create request of `persist`: e-mail, password, verified, nothing else. */
  function NewCreateRequest(moderator: Moderator): CreateRequest {
    CreateRequest(moderator.email, moderator.password, None, None, true)
  }

  function NewRecordOf(moderator: Moderator, now: Timestamp): UserRecord {
    NewRecord(NewCreateRequest(moderator), now).(claims := NEW_CLAIMS)
  }

  /** `persist(moderator)`: an identity record and its claims. */
  method Persist(store: Backend, moderator: Moderator, now: Timestamp) returns (r: Outcome, ghost uid: Uid)
    modifies store
    ensures r.Fail? <==> EmailTaken(old(store.users), moderator.email, None)
    ensures r.Fail? ==> store.users == old(store.users)
    ensures r.Pass? ==> uid !in old(store.users) && uid != ""
                        && store.users == old(store.users)[uid := NewRecordOf(moderator, now)]
    ensures store.docs == old(store.docs) && store.blobs == old(store.blobs)
  {
    var created := store.CreateUser(NewCreateRequest(moderator), now);
    if created.Err? {
      return Fail(created.error), "";
    }
    var id := created.value;
    uid := id;
    store.SetCustomUserClaims(id, NEW_CLAIMS);
    r := Pass;
  }

  /** Finding F4: `find` never finds a moderator `persist` created, since
      the stored role claim is "MODERATOR". */
  lemma PersistedIsNotFound(users: map<Uid, UserRecord>, uid: Uid, moderator: Moderator, now: Timestamp)
    requires uid != ""
    ensures Find(users[uid := NewRecordOf(moderator, now)], Some(uid)) == Err(EntityNotFound("Moderator", Some(uid)))
  {
  }

  /** Compared with the stored role name, `find` reads back the moderator
      `persist` wrote: active, with its e-mail, no password and no photo. */
  lemma PersistThenFindStored(users: map<Uid, UserRecord>, uid: Uid, moderator: Moderator, now: Timestamp)
    requires uid != ""
    ensures FindStored(users[uid := NewRecordOf(moderator, now)], Some(uid))
         == Ok(Moderator(Some(uid), moderator.email, None, None, Some(MODERATOR), Some(ACTIVE)))
  {
    RoleOfModeratorClaims();
  }

  // ---------------------------------------------------------------------
  // update

  /** The update request: e-mail always set and marked verified; the
      password when one is given. */
  function UpdateRequestOf(uid: Uid, moderator: Moderator): (req: UpdateRequest)
    ensures req.email == Set(moderator.email) && req.emailVerified == Set(true)
    ensures req.password.Set? <==> moderator.password.Some?
    ensures req.phoneNumber == Leave && req.displayName == Leave && req.photoUrl == Leave && req.claims == Leave
  {
    var req := NoChange(uid).(email := Set(moderator.email), emailVerified := Set(true));
    if moderator.password.Some? then req.(password := Set(moderator.password)) else req
  }

  /** The record after a successful update, claims aside. */
  function UpdatedRecord(rec: UserRecord, moderator: Moderator): UserRecord {
    rec.(email := moderator.email, emailVerified := true,
         password := if moderator.password.Some? then moderator.password else rec.password)
  }

  /** When `update` gets through: the uid names a record and a new e-mail
      does not belong to another user. */
  predicate Updatable(users: map<Uid, UserRecord>, moderator: Moderator) {
    GetUserIn(users, moderator.uid).Ok? && !EmailTaken(users, moderator.email, moderator.uid)
  }

  /** The routine of `update(moderator)`, writing `claims` after the record. */
  method UpdateWith(store: Backend, moderator: Moderator, claims: map<string, string>) returns (r: Result<Moderator>)
    modifies store
    ensures r.Ok? <==> Updatable(old(store.users), moderator)
    ensures r.Ok? ==> r.value == moderator
    ensures r.Err? ==> store.users == old(store.users)
    ensures r.Ok? ==> var uid := moderator.uid.value;
                      store.users == old(store.users)[uid := UpdatedRecord(old(store.users)[uid], moderator).(claims := claims)]
    ensures store.docs == old(store.docs) && store.blobs == old(store.blobs)
  {
    var rec :- store.GetUser(moderator.uid);
    var uid := moderator.uid.value;
    var req := UpdateRequestOf(uid, moderator);
    var updated := store.UpdateUser(req);
    if updated.Fail? {
      return Err(updated.error);
    }
    store.SetCustomUserClaims(uid, claims);
    r := Ok(moderator);
  }

  /** `update(moderator)` as written: the claims are reset to MODERATOR and
      ACTIVE whatever the moderator's status. */
  method Update(store: Backend, moderator: Moderator) returns (r: Result<Moderator>)
    modifies store
    ensures r.Ok? <==> Updatable(old(store.users), moderator)
    ensures r.Ok? ==> r.value == moderator
    ensures r.Err? ==> store.users == old(store.users)
    ensures r.Ok? ==> var uid := moderator.uid.value;
                      store.users == old(store.users)[uid := UpdatedRecord(old(store.users)[uid], moderator).(claims := NEW_CLAIMS)]
    ensures store.docs == old(store.docs) && store.blobs == old(store.blobs)
  {
    r := UpdateWith(store, moderator, NEW_CLAIMS);
  }

  /** The claims an update that honours the moderator's status writes. */
  function StatusClaims(moderator: Moderator): (claims: map<string, string>)
    ensures claims.Keys == {"role", "status"} && claims["role"] == RoleName(MODERATOR)
    ensures moderator.status.Some? ==> claims["status"] == StatusName(moderator.status.value)
    ensures moderator.status.None? ==> claims == NEW_CLAIMS
  {
    map["role" := RoleName(MODERATOR),
        "status" := StatusName(if moderator.status.Some? then moderator.status.value else ACTIVE)]
  }

  /** `update(moderator)` writing the moderator's own status (finding F7). */
  method UpdateKeepingStatus(store: Backend, moderator: Moderator) returns (r: Result<Moderator>)
    modifies store
    ensures r.Ok? <==> Updatable(old(store.users), moderator)
    ensures r.Ok? ==> r.value == moderator
    ensures r.Err? ==> store.users == old(store.users)
    ensures r.Ok? ==> var uid := moderator.uid.value;
                      store.users == old(store.users)[uid := UpdatedRecord(old(store.users)[uid], moderator).(claims := StatusClaims(moderator))]
    ensures store.docs == old(store.docs) && store.blobs == old(store.blobs)
  {
    r := UpdateWith(store, moderator, StatusClaims(moderator));
  }

  /** Whatever status an updated moderator carries, the record read back
      afterwards (by the stored role name) is ACTIVE. */
  lemma UpdateResetsStatus(users: map<Uid, UserRecord>, uid: Uid, rec: UserRecord, moderator: Moderator)
    requires uid != ""
    ensures var found := FindStored(users[uid := UpdatedRecord(rec, moderator).(claims := NEW_CLAIMS)], Some(uid));
            found.Ok? && found.value.status == Some(ACTIVE)
  {
    RoleOfModeratorClaims();
  }

  /** With the status honoured, the status read back is the one written. */
  lemma UpdateKeepingStatusReadsBack(users: map<Uid, UserRecord>, uid: Uid, rec: UserRecord, moderator: Moderator)
    requires uid != "" && moderator.status.Some?
    ensures var found := FindStored(users[uid := UpdatedRecord(rec, moderator).(claims := StatusClaims(moderator))], Some(uid));
            found.Ok? && found.value.status == moderator.status
  {
    RoleOfModeratorClaims();
    StatusRoundTrip(moderator.status.value);
  }

  // ---------------------------------------------------------------------
  // delete

  /** `delete(uid)`: the identity record only. */
  method Delete(store: Backend, uid: Uid) returns (r: Outcome)
    modifies store
    ensures r.Pass? <==> uid in old(store.users)
    ensures store.users == old(store.users) - {uid}
    ensures store.docs == old(store.docs) && store.blobs == old(store.blobs)
  {
    r := store.DeleteUser(uid);
  }
}
