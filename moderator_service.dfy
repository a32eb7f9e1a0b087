/** service/ModeratorService.java: moderators are read and written through
    the moderator repository. As written, `find` accepts only the role claim
    "ROLE_MODERATOR", which `persist` never writes (finding F4), and
    `update` resets the claims to ACTIVE (finding F7); the members named
    `...Corrected` read by the stored role name and write the moderator's
    own status. */
module ModeratorService {
  import opened Common
  import opened Firebase
  import opened Entities
  import M = ModeratorRepository

  const ALREADY_DELETED := Runtime("User already deleted")

  /** How the service reads a moderator: `find` as written, or compared
      with the role name `persist` stores. */
  function Read(users: map<Uid, UserRecord>, uid: Option<Uid>, corrected: bool): Result<Moderator> {
    if corrected then M.FindStored(users, uid) else M.Find(users, uid)
  }

  /** The claims an update writes: reset to MODERATOR and ACTIVE as written,
      the moderator's own status corrected. */
  function ClaimsWritten(moderator: Moderator, corrected: bool): map<string, string> {
    if corrected then M.StatusClaims(moderator) else M.NEW_CLAIMS
  }

  /** The identity store holds `moderator` written with `claims`. */
  ghost predicate WroteBack(users0: map<Uid, UserRecord>, users1: map<Uid, UserRecord>, moderator: Moderator, claims: map<string, string>) {
    moderator.uid.Some? && moderator.uid.value in users0
    && users1 == users0[moderator.uid.value := M.UpdatedRecord(users0[moderator.uid.value], moderator).(claims := claims)]
  }

  /** `getModerator(uid)` as written: only a record whose role claim is
      "ROLE_MODERATOR" is returned; `find` never returns null, so the null
      check is dead. */
  function GetModerator(users: map<Uid, UserRecord>, uid: Uid): (r: Result<Moderator>)
    ensures r.Ok? ==> uid in users && "role" in users[uid].claims && users[uid].claims["role"] == M.FIND_ROLE
    ensures r.Ok? ==> r.value.uid == Some(uid) && r.value.role == Some(MODERATOR)
                      && r.value.email == users[uid].email && r.value.status.Some?
                      && "status" in users[uid].claims && users[uid].claims["status"] == StatusName(r.value.status.value)
    ensures r.Err? ==> r.error != NotFound("User not found.")
  {
    M.Find(users, Some(uid))
  }

  /** `getModerator(uid)` corrected (F4): the moderators `persist` made. */
  function GetModeratorCorrected(users: map<Uid, UserRecord>, uid: Uid): (r: Result<Moderator>)
    ensures r.Ok? ==> uid in users && "role" in users[uid].claims && users[uid].claims["role"] == RoleName(MODERATOR)
    ensures r.Ok? ==> r.value.uid == Some(uid) && r.value.role == Some(MODERATOR)
                      && r.value.email == users[uid].email && r.value.status.Some?
                      && "status" in users[uid].claims && users[uid].claims["status"] == StatusName(r.value.status.value)
    ensures r.Err? ==> r.error != NotFound("User not found.")
  {
    M.FindStored(users, Some(uid))
  }

  /** `createModerator(moderator)`: one `persist`, nothing else. */
  method CreateModerator(store: Backend, moderator: Moderator, now: Timestamp) returns (r: Outcome, ghost uid: Uid)
    modifies store
    ensures r.Fail? <==> EmailTaken(old(store.users), moderator.email, None)
    ensures r.Fail? ==> store.users == old(store.users)
    ensures r.Pass? ==> uid !in old(store.users) && store.users == old(store.users)[uid := M.NewRecordOf(moderator, now)]
    ensures store.docs == old(store.docs) && store.blobs == old(store.blobs)
  {
    r, uid := M.Persist(store, moderator, now);
  }

  /** `updateModerator(moderator)`, reading and writing as `corrected`
      says: only a moderator that can be read is written, as given. */
  method UpdateModeratorWith(store: Backend, moderator: Moderator, corrected: bool) returns (r: Result<Moderator>)
    modifies store
    ensures var found := old(Read(store.users, moderator.uid, corrected));
            (found.Err? ==> r == Err(found.error))
            && (found.Ok? ==> (r.Ok? <==> M.Updatable(old(store.users), moderator)))
    ensures r.Ok? ==> r.value == moderator && WroteBack(old(store.users), store.users, moderator, ClaimsWritten(moderator, corrected))
    ensures r.Err? ==> store.users == old(store.users)
    ensures store.docs == old(store.docs) && store.blobs == old(store.blobs)
  {
    var found :- Read(store.users, moderator.uid, corrected);
    if corrected {
      r := M.UpdateKeepingStatus(store, moderator);
    } else {
      r := M.Update(store, moderator);
    }
  }

  /** `updateModerator(moderator)` as written: a moderator `find` accepts is
      stored as ACTIVE whatever its status. */
  method UpdateModerator(store: Backend, moderator: Moderator) returns (r: Result<Moderator>)
    modifies store
    ensures var found := old(M.Find(store.users, moderator.uid));
            (found.Err? ==> r == Err(found.error))
            && (found.Ok? ==> (r.Ok? <==> M.Updatable(old(store.users), moderator)))
    ensures r.Ok? ==> r.value == moderator && WroteBack(old(store.users), store.users, moderator, M.NEW_CLAIMS)
                      && store.users[moderator.uid.value].claims["status"] == StatusName(ACTIVE)
    ensures r.Err? ==> store.users == old(store.users)
    ensures store.docs == old(store.docs) && store.blobs == old(store.blobs)
  {
    r := UpdateModeratorWith(store, moderator, false);
  }

  /** `updateModerator(moderator)` corrected (F4, F7): the moderators
      `persist` made are found, and their status is stored as given. */
  method UpdateModeratorCorrected(store: Backend, moderator: Moderator) returns (r: Result<Moderator>)
    modifies store
    ensures var found := old(M.FindStored(store.users, moderator.uid));
            (found.Err? ==> r == Err(found.error))
            && (found.Ok? ==> (r.Ok? <==> M.Updatable(old(store.users), moderator)))
    ensures r.Ok? ==> r.value == moderator && WroteBack(old(store.users), store.users, moderator, M.StatusClaims(moderator))
    ensures r.Err? ==> store.users == old(store.users)
    ensures store.docs == old(store.docs) && store.blobs == old(store.blobs)
  {
    r := UpdateModeratorWith(store, moderator, true);
  }

  /** `deleteModerator(uid)`, reading and writing as `corrected` says: a
      soft delete. An already deleted moderator throws and nothing is
      written; any other is written back with the DELETED status. */
  method DeleteModeratorWith(store: Backend, uid: Uid, corrected: bool) returns (r: Outcome)
    modifies store
    ensures var found := old(Read(store.users, Some(uid), corrected));
            (found.Err? ==> r == Fail(found.error))
            && (found.Ok? && found.value.status == Some(DELETED) ==> r == Fail(ALREADY_DELETED))
            && (r.Fail? ==> store.users == old(store.users))
            && (found.Ok? && found.value.status != Some(DELETED) ==>
                  var x := found.value.(status := Some(DELETED));
                  (r.Pass? <==> M.Updatable(old(store.users), x))
                  && (r.Pass? ==> WroteBack(old(store.users), store.users, x, ClaimsWritten(x, corrected))))
    ensures store.docs == old(store.docs) && store.blobs == old(store.blobs)
  {
    var found := Read(store.users, Some(uid), corrected);
    if found.Err? {
      return Fail(found.error);
    }
    if found.value.status == Some(DELETED) {
      return Fail(ALREADY_DELETED);
    }
    var updated;
    if corrected {
      updated := M.UpdateKeepingStatus(store, found.value.(status := Some(DELETED)));
    } else {
      updated := M.Update(store, found.value.(status := Some(DELETED)));
    }
    r := if updated.Ok? then Pass else Fail(updated.error);
  }

  /** `deleteModerator(uid)` as written: a moderator `find` accepts is
      written back with the claims reset, so it stays ACTIVE (finding F7). */
  method DeleteModerator(store: Backend, uid: Uid) returns (r: Outcome)
    modifies store
    ensures var found := old(M.Find(store.users, Some(uid)));
            (found.Err? ==> r == Fail(found.error))
            && (found.Ok? && found.value.status == Some(DELETED) ==> r == Fail(ALREADY_DELETED))
            && (r.Fail? ==> store.users == old(store.users))
            && (found.Ok? && found.value.status != Some(DELETED) ==>
                  (r.Pass? <==> M.Updatable(old(store.users), found.value.(status := Some(DELETED)))))
    ensures r.Pass? ==> uid in old(store.users) && uid in store.users && store.users[uid].claims == M.NEW_CLAIMS
                        && store.users[uid].claims["status"] == StatusName(ACTIVE)
    ensures store.docs == old(store.docs) && store.blobs == old(store.blobs)
  {
    r := DeleteModeratorWith(store, uid, false);
  }

  /** `deleteModerator(uid)` corrected (F4, F7): the moderator is stored
      with the DELETED status. */
  method DeleteModeratorCorrected(store: Backend, uid: Uid) returns (r: Outcome)
    modifies store
    ensures var found := old(M.FindStored(store.users, Some(uid)));
            (found.Err? ==> r == Fail(found.error))
            && (found.Ok? && found.value.status == Some(DELETED) ==> r == Fail(ALREADY_DELETED))
            && (r.Fail? ==> store.users == old(store.users))
            && (found.Ok? && found.value.status != Some(DELETED) ==>
                  var x := found.value.(status := Some(DELETED));
                  (r.Pass? <==> M.Updatable(old(store.users), x))
                  && (r.Pass? ==> WroteBack(old(store.users), store.users, x, M.StatusClaims(x))
                                  && store.users[uid].claims["status"] == StatusName(DELETED)))
    ensures store.docs == old(store.docs) && store.blobs == old(store.blobs)
  {
    r := DeleteModeratorWith(store, uid, true);
  }

  /** A moderator deleted by the corrected path reads back as DELETED, so a
      second delete throws. */
  lemma DeletedReadsBack(users: map<Uid, UserRecord>, uid: Uid)
    requires M.FindStored(users, Some(uid)).Ok?
    ensures var x := M.FindStored(users, Some(uid)).value.(status := Some(DELETED));
            var found := GetModeratorCorrected(users[uid := M.UpdatedRecord(users[uid], x).(claims := M.StatusClaims(x))], uid);
            found.Ok? && found.value.status == Some(DELETED)
  {
    var x := M.FindStored(users, Some(uid)).value.(status := Some(DELETED));
    M.UpdateKeepingStatusReadsBack(users, uid, users[uid], x);
  }

  /** As written, none of `getModerator`, `updateModerator` and
      `deleteModerator` gets past `find` for a moderator `createModerator`
      made: each reports it as not found. */
  lemma CreatedIsNotFound(users: map<Uid, UserRecord>, uid: Uid, moderator: Moderator, now: Timestamp)
    requires uid != ""
    ensures GetModerator(users[uid := M.NewRecordOf(moderator, now)], uid) == Err(EntityNotFound("Moderator", Some(uid)))
    ensures Read(users[uid := M.NewRecordOf(moderator, now)], Some(uid), false) == Err(EntityNotFound("Moderator", Some(uid)))
  {
    M.PersistedIsNotFound(users, uid, moderator, now);
  }
}
