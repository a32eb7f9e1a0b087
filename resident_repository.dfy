/** repository/ResidentRepository.java: residents are identity records with
    the claim role=RESIDENT plus a document in the residents collection
    holding their names, status and creation date. */
module ResidentRepository {
  import opened Common
  import opened Paging
  import opened Firebase
  import opened Entities
  import opened PagedQueries

  const ROLE := RoleName(RESIDENT)

  /** The claims a new resident gets. */
  const NEW_CLAIMS: map<string, string> := map["role" := RoleName(RESIDENT), "status" := StatusName(ACTIVE)]

  /** `makeResident(record, snapshot)`: the status comes from the document and
      must name a status. Neither the password nor the phone number is filled. */
  function MakeResident(uid: Uid, rec: UserRecord, snap: Option<Doc>): (r: Result<Resident>)
    ensures r.Ok? <==> StatusValueOf(GetString(snap, "status")).Ok?
    ensures r.Ok? ==> ReadFrom(r.value, uid, rec, snap)
    ensures r.Err? ==> r.error == StatusValueOf(GetString(snap, "status")).error
  {
    var status :- StatusValueOf(GetString(snap, "status"));
    Ok(Resident(Some(uid), rec.email, None, rec.photoUrl, None, Some(RESIDENT), Some(status),
                Some(rec.creationTimestamp), GetString(snap, "firstName"), GetString(snap, "lastName")))
  }

  /** Where each property of a resident read from the backends comes from. */
  predicate ReadFrom(x: Resident, uid: Uid, rec: UserRecord, snap: Option<Doc>) {
    x.uid == Some(uid) && x.role == Some(RESIDENT)
    && x.status.Some? && GetString(snap, "status") == Some(StatusName(x.status.value))
    && x.email == rec.email && x.photo == rec.photoUrl && x.creationDate == Some(rec.creationTimestamp)
    && x.firstName == GetString(snap, "firstName") && x.lastName == GetString(snap, "lastName")
    && x.password.None? && x.phoneNumber.None?
  }

  /** `find(uid)`: only a record whose role claim is RESIDENT is a resident;
      a record without claims is not; a missing document leaves the status
      null and `valueOf` throws. */
  function Find(users: map<Uid, UserRecord>, coll: map<Uid, Doc>, uid: Option<Uid>): (r: Result<Resident>)
    ensures r.Ok? ==> uid.Some? && uid.value in users && HasRoleClaim(users[uid.value].claims, ROLE) == Ok(true)
    ensures r.Ok? ==> ReadFrom(r.value, uid.value, users[uid.value], SnapshotOf(coll, uid.value))
    ensures GetUserIn(users, uid).Err? ==> r == Err(GetUserIn(users, uid).error)
    ensures GetUserIn(users, uid).Ok? && HasRoleClaim(users[uid.value].claims, ROLE) == Ok(false) ==>
              r == Err(EntityNotFound("Resident", uid))
    ensures GetUserIn(users, uid).Ok? && HasRoleClaim(users[uid.value].claims, ROLE) == Ok(true) ==>
              (r.Ok? <==> StatusValueOf(GetString(SnapshotOf(coll, uid.value), "status")).Ok?)
  {
    var rec :- GetUserIn(users, uid);
    var isResident :- HasRoleClaim(rec.claims, ROLE);
    if !isResident then Err(EntityNotFound("Resident", uid))
    else MakeResident(uid.value, rec, SnapshotOf(coll, uid.value))
  }

  /** `find(uid)` with the phone number taken from the identity record, as
      `makeService` does; without it a write-back clears the stored phone
      number (finding F5). */
  function FindWithPhone(users: map<Uid, UserRecord>, coll: map<Uid, Doc>, uid: Option<Uid>): (r: Result<Resident>)
    ensures r.Ok? <==> Find(users, coll, uid).Ok?
    ensures r.Err? ==> r == Find(users, coll, uid)
    ensures r.Ok? ==> r.value.phoneNumber == users[uid.value].phoneNumber
                      && ReadFrom(r.value.(phoneNumber := None), uid.value, users[uid.value], SnapshotOf(coll, uid.value))
  {
    var x :- Find(users, coll, uid);
    Ok(x.(phoneNumber := users[uid.value].phoneNumber))
  }

  // ---------------------------------------------------------------------
  // findAll

  /** What the loop of `findAll` does with one document of the page. */
  function PageStep(users: map<Uid, UserRecord>, coll: map<Uid, Doc>, id: Uid): Step<Resident> {
    match GetUserIn(users, Some(id))
    case Err(e) => Abort(e)
    case Ok(rec) =>
      match HasRoleClaim(rec.claims, ROLE)
      case Err(e) => Abort(e)
      case Ok(isResident) =>
        if !isResident then Skip
        else match MakeResident(id, rec, SnapshotOf(coll, id))
          case Err(e) => Abort(e)
          case Ok(x) => Keep(x)
  }

  function PageSteps(users: map<Uid, UserRecord>, coll: map<Uid, Doc>, ids: seq<Uid>): (s: seq<Step<Resident>>)
    ensures |s| == |ids|
    ensures forall i :: 0 <= i < |ids| ==> s[i] == PageStep(users, coll, ids[i])
  {
    seq(|ids|, i requires 0 <= i < |ids| => PageStep(users, coll, ids[i]))
  }

  /** The loop agrees with `find`: a document is kept exactly when `find`
      returns its resident, skipped exactly when `find` reports that it is
      not a resident, and stops the loop with `find`'s exception otherwise. */
  lemma PageStepIsFind(users: map<Uid, UserRecord>, coll: map<Uid, Doc>, id: Uid)
    ensures PageStep(users, coll, id).Keep? <==> Find(users, coll, Some(id)).Ok?
    ensures PageStep(users, coll, id).Keep? ==> PageStep(users, coll, id).item == Find(users, coll, Some(id)).value
    ensures PageStep(users, coll, id).Skip? <==> Find(users, coll, Some(id)) == Err(EntityNotFound("Resident", Some(id)))
    ensures PageStep(users, coll, id).Abort? ==> Find(users, coll, Some(id)) == Err(PageStep(users, coll, id).error)
  {
  }

  /** The for-loop of `findAll` over the documents of one page. */
  method CollectPage(store: Backend, ids: seq<Uid>) returns (c: Collected<Resident>)
    requires forall id :: id in ids ==> id in store.Coll(Residents)
    ensures c == Collect(PageSteps(store.users, store.Coll(Residents), ids))
  {
    ghost var steps := PageSteps(store.users, store.Coll(Residents), ids);
    var residents: seq<Resident> := [];
    for i := 0 to |ids|
      invariant Collect(steps[..i]) == Collected(residents, None)
    {
      CollectNext(steps, i, residents);
      var rec := store.GetUser(Some(ids[i]));
      if rec.Err? {
        return Collected(residents, Some(rec.error));
      }
      var isResident := HasRoleClaim(rec.value.claims, ROLE);
      if isResident.Err? {
        return Collected(residents, Some(isResident.error));
      }
      if !isResident.value {
        continue;
      }
      var resident := MakeResident(ids[i], rec.value, store.Snapshot(Residents, ids[i]));
      if resident.Err? {
        return Collected(residents, Some(resident.error));
      }
      residents := residents + [resident.value];
    }
    assert steps[..|ids|] == steps;
    c := Collected(residents, None);
  }

  /** `findAll(statuses, pageable)`. */
  method FindAll(store: Backend, statuses: Option<seq<UserStatus>>, p: Pageable) returns (r: PagedResult<Resident>)
    requires Clamped(p)
    ensures var ids := PageIds(store, Residents, statuses, p);
            r == Listing(p, Count(store.Coll(Residents), StatusFilter(statuses)),
                         if ids.Err? then Err(ids.error) else Ok(PageSteps(store.users, store.Coll(Residents), ids.value)))
  {
    var total := Count(store.Coll(Residents), StatusFilter(statuses));
    if total.Err? {
      return PagedResult([], p.page as int, 0, 0);
    }
    var query := ItemsQuery(statuses, p);
    if query.Err? {
      return PagedResult([], p.page as int, 0, 0);
    }
    var documents := store.RunQuery(Residents, query.value);
    if documents.Err? {
      return PagedResult([], p.page as int, 0, 0);
    }
    var c := CollectPage(store, documents.value);
    if c.error.Some? {
      return PagedResult(c.items, p.page as int, 0, 0);
    }
    r := PagedResult(c.items, p.page as int, total.value, CeilDiv(total.value, p.size as int));
  }

  /** Every resident on a page is what `find` returns for one of the page's
      documents, so it carries the RESIDENT role and its record's role claim
      is RESIDENT. */
  lemma {:induction false} FindAllItemsAreFound(users: map<Uid, UserRecord>, coll: map<Uid, Doc>, p: Pageable, total: Result<nat>, ids: seq<Uid>)
    requires Clamped(p)
    ensures forall x: Resident :: x in Listing(p, total, Ok(PageSteps(users, coll, ids))).items ==>
              exists i :: 0 <= i < |ids| && Find(users, coll, Some(ids[i])) == Ok(x)
    ensures forall x: Resident :: x in Listing(p, total, Ok(PageSteps(users, coll, ids))).items ==>
              x.role == Some(RESIDENT) && x.uid.Some? && x.uid.value in users
              && HasRoleClaim(users[x.uid.value].claims, ROLE) == Ok(true)
  {
    var steps := PageSteps(users, coll, ids);
    ListingFacts(p, total, Ok(steps));
    forall x | x in Listing(p, total, Ok(steps)).items
      ensures exists i :: 0 <= i < |ids| && Find(users, coll, Some(ids[i])) == Ok(x)
    {
      assert Keep(x) in steps;
      var i :| 0 <= i < |steps| && steps[i] == Keep(x);
      PageStepIsFind(users, coll, ids[i]);
    }
  }

  // ---------------------------------------------------------------------
  // persist

  /** The record `persist` creates: the display name joins the two names; the
      e-mail is not verified; no phone number. */
  function NewRecordOf(resident: Resident, now: Timestamp): UserRecord {
    NewRecord(CreateRequest(resident.email, resident.password, Some(FullName(resident.firstName, resident.lastName)), None, false), now)
      .(claims := NEW_CLAIMS)
  }

  /** The document `persist` writes. */
  function NewDocOf(resident: Resident, now: Timestamp): Doc {
    map["firstName" := StrValue(resident.firstName), "lastName" := StrValue(resident.lastName),
        "creationDate" := Date(now), "status" := Str(StatusName(ACTIVE))]
  }

  /** `persist(resident)`: an identity record (which fails when the e-mail is
      taken), its claims, then the document under the new uid. `now` is the
      creation time Firebase assigns; `uid` is the id it hands out. */
  method Persist(store: Backend, resident: Resident, now: Timestamp) returns (r: Outcome, ghost uid: Uid)
    modifies store
    ensures r.Fail? <==> EmailTaken(old(store.users), resident.email, None)
    ensures r.Fail? ==> store.users == old(store.users) && store.docs == old(store.docs)
    ensures r.Pass? ==> uid !in old(store.users) && uid != ""
                        && store.users == old(store.users)[uid := NewRecordOf(resident, now)]
                        && store.docs == old(store.docs).With(Residents, old(store.Coll(Residents))[uid := NewDocOf(resident, now)])
    ensures store.blobs == old(store.blobs)
  {
    var created := store.CreateUser(CreateRequest(resident.email, resident.password,
                                                  Some(FullName(resident.firstName, resident.lastName)), None, false), now);
    if created.Err? {
      return Fail(created.error), "";
    }
    var id := created.value;
    uid := id;
    store.SetCustomUserClaims(id, NEW_CLAIMS);
    store.SetDocument(Residents, id, NewDocOf(resident, now));
    r := Pass;
  }

  /** What `persist` writes, `find` reads back: the resident's e-mail and
      names, the RESIDENT role, the ACTIVE status and the creation time; no
      password, photo or phone number. */
  lemma PersistThenFind(users: map<Uid, UserRecord>, coll: map<Uid, Doc>, uid: Uid, resident: Resident, now: Timestamp)
    requires uid != ""
    ensures Find(users[uid := NewRecordOf(resident, now)], coll[uid := NewDocOf(resident, now)], Some(uid))
         == Ok(Resident(Some(uid), resident.email, None, None, None, Some(RESIDENT), Some(ACTIVE), Some(now),
                        resident.firstName, resident.lastName))
  {
    GetStringOfStored(map["firstName" := StrValue(resident.firstName)], "firstName", resident.firstName);
  }

  // ---------------------------------------------------------------------
  // update

  /** The identity record `update` leaves behind, claims aside: the display
      name, e-mail and phone number of the resident, verification reset when
      the e-mail changes, the password when one is given. */
  function UpdatedRecord(rec: UserRecord, resident: Resident): UserRecord {
    rec.(displayName := Some(FullName(resident.firstName, resident.lastName)),
         email := resident.email,
         emailVerified := if resident.email != rec.email then false else rec.emailVerified,
         password := if resident.password.Some? then resident.password else rec.password,
         phoneNumber := resident.phoneNumber)
  }

  /** The conditional setters of the update request. */
  method IdentityRequest(uid: Uid, rec: UserRecord, resident: Resident, claims: map<string, string>) returns (req: UpdateRequest)
    ensures req.uid == uid && req.photoUrl == Leave && req.claims == Set(claims)
    ensures req.displayName.Set? <==> rec.displayName != Some(FullName(resident.firstName, resident.lastName))
    ensures req.email.Set? <==> resident.email != rec.email
    ensures req.emailVerified.Set? <==> resident.email != rec.email
    ensures req.password.Set? <==> resident.password.Some?
    ensures req.phoneNumber.Set? <==> resident.phoneNumber != rec.phoneNumber
    ensures ApplyUpdate(rec, req) == UpdatedRecord(rec, resident).(claims := claims)
  {
    var name := FullName(resident.firstName, resident.lastName);
    req := NoChange(uid);
    if Some(name) != rec.displayName {
      req := req.(displayName := Set(Some(name)));
    }
    if resident.email != rec.email {
      req := req.(email := Set(resident.email), emailVerified := Set(false));
    }
    if resident.password.Some? {
      req := req.(password := Set(resident.password));
    }
    if resident.phoneNumber != rec.phoneNumber {
      req := req.(phoneNumber := Set(resident.phoneNumber));
    }
    req := req.(claims := Set(claims));
  }

  /** The document fields `update` compares, and the values it wants. */
  function Wanted(resident: Resident, status: UserStatus): map<string, Wanted> {
    map["firstName" := WantString(resident.firstName), "lastName" := WantString(resident.lastName),
        "status" := WantString(Some(StatusName(status)))]
  }

  /** The conditional puts of the document patch. */
  method DocumentPatch(resident: Resident, status: UserStatus, snap: Option<Doc>) returns (patch: map<string, Value>)
    ensures patch == Diff(Wanted(resident, status), snap)
  {
    patch := map[];
    DiffNone(snap);
    DiffExtend(map[], snap, "firstName", WantString(resident.firstName));
    if resident.firstName != GetString(snap, "firstName") {
      patch := patch["firstName" := StrValue(resident.firstName)];
    }
    ghost var wanted := map["firstName" := WantString(resident.firstName)];
    DiffExtend(wanted, snap, "lastName", WantString(resident.lastName));
    if resident.lastName != GetString(snap, "lastName") {
      patch := patch["lastName" := StrValue(resident.lastName)];
    }
    wanted := wanted["lastName" := WantString(resident.lastName)];
    DiffExtend(wanted, snap, "status", WantString(Some(StatusName(status))));
    if Some(StatusName(status)) != GetString(snap, "status") {
      patch := patch["status" := Str(StatusName(status))];
    }
    assert wanted["status" := WantString(Some(StatusName(status)))] == Wanted(resident, status);
  }

  /** When `update` gets through: the uid names a record, the resident has a
      status, the record has a status claim, and a changed e-mail or phone
      number does not belong to another user. */
  predicate Updatable(users: map<Uid, UserRecord>, resident: Resident) {
    GetUserIn(users, resident.uid).Ok? && resident.status.Some?
    && var rec := users[resident.uid.value];
    "status" in rec.claims
    && !(resident.email != rec.email && EmailTaken(users, resident.email, resident.uid))
    && !(resident.phoneNumber != rec.phoneNumber && PhoneTaken(users, resident.phoneNumber, resident.uid))
  }

  /** `update(resident)`: the identity record with the status claim, then the
      document patch if it is not empty; returns its argument. Nothing is
      written when it fails. */
  method Update(store: Backend, resident: Resident) returns (r: Result<Resident>)
    modifies store
    ensures r.Ok? <==> Updatable(old(store.users), resident)
    ensures r.Ok? ==> r.value == resident
    ensures r.Err? ==> store.users == old(store.users) && store.docs == old(store.docs)
    ensures r.Ok? ==>
              var uid := resident.uid.value;
              var patch := Diff(Wanted(resident, resident.status.value), old(store.Snapshot(Residents, uid)));
              var rec := old(store.users)[uid];
              store.users == old(store.users)[uid := UpdatedRecord(rec, resident).(claims := rec.claims["status" := StatusName(resident.status.value)])]
              && store.docs == old(store.docs).With(Residents, UpdateIn(old(store.Coll(Residents)), uid, patch))
              && IdentityThenPatch(old(store.calls), store.calls, uid, Residents, patch)
    ensures store.blobs == old(store.blobs)
  {
    var rec :- store.GetUser(resident.uid);
    var uid := resident.uid.value;
    if resident.status.None? {
      return Err(NullPointer);
    }
    var status := resident.status.value;
    var patch := DocumentPatch(resident, status, store.Snapshot(Residents, uid));
    var current :- ClaimString(rec.claims, "status");
    var claims := rec.claims["status" := StatusName(status)];
    var req := IdentityRequest(uid, rec, resident, claims);
    var updated := store.UpdateUser(req);
    if updated.Fail? {
      return Err(updated.error);
    }
    if patch != map[] {
      store.UpdateDocument(Residents, uid, patch);
    } else {
      UpdateInEmpty(store.Coll(Residents), uid);
    }
    r := Ok(resident);
  }

  /** Writing back a resident just read changes no document field: the
      patch is empty. (Its phone number is null, so the identity record's
      phone number is cleared; see the findings.) */
  lemma FoundHasEmptyPatch(users: map<Uid, UserRecord>, coll: map<Uid, Doc>, uid: Uid)
    requires Find(users, coll, Some(uid)).Ok?
    ensures var x := Find(users, coll, Some(uid)).value;
            Diff(Wanted(x, x.status.value), SnapshotOf(coll, uid)) == map[]
  {
    var x := Find(users, coll, Some(uid)).value;
    DiffEmptyIff(Wanted(x, x.status.value), SnapshotOf(coll, uid));
  }

  // ---------------------------------------------------------------------
  // delete

  /** `delete(uid)`: the identity record, then the document; a missing
      record throws before the document is touched. */
  method Delete(store: Backend, uid: Uid) returns (r: Outcome)
    modifies store
    ensures r.Pass? <==> uid in old(store.users)
    ensures store.users == old(store.users) - {uid}
    ensures r.Pass? ==> store.docs == old(store.docs).With(Residents, old(store.Coll(Residents)) - {uid})
    ensures r.Fail? ==> store.docs == old(store.docs)
    ensures store.blobs == old(store.blobs)
  {
    r := store.DeleteUser(uid);
    if r.Fail? {
      return;
    }
    store.DeleteDocument(Residents, uid);
  }
}
