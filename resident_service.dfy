/** service/ResidentService.java: reads, merges and soft-deletes residents
    through the resident repository. As written, residents are read with a
    null phone number, so every write-back erases the stored one (finding
    F5); the members named `...WithPhone` and `...KeepingPhone` read it from
    the identity record instead. */
module ResidentService {
  import opened Common
  import opened Paging
  import opened Firebase
  import opened Entities
  import opened PagedQueries
  import R = ResidentRepository

  const ALREADY_DELETED := Runtime("User already deleted")

  /** The identity records `update(x)` leaves behind. */
  function UsersAfterUpdate(users: map<Uid, UserRecord>, x: Resident): map<Uid, UserRecord>
    requires x.uid.Some? && x.uid.value in users && x.status.Some?
  {
    var rec := users[x.uid.value];
    users[x.uid.value := R.UpdatedRecord(rec, x).(claims := rec.claims["status" := StatusName(x.status.value)])]
  }

  /** The residents collection `update(x)` leaves behind. */
  function DocsAfterUpdate(coll: map<Uid, Doc>, x: Resident): map<Uid, Doc>
    requires x.uid.Some? && x.status.Some?
  {
    UpdateIn(coll, x.uid.value, Diff(R.Wanted(x, x.status.value), SnapshotOf(coll, x.uid.value)))
  }

  /** The backends hold what a successful `update(x)` writes. */
  predicate WroteBack(users0: map<Uid, UserRecord>, docs0: Collections,
                      users1: map<Uid, UserRecord>, docs1: Collections, x: Resident) {
    x.uid.Some? && x.uid.value in users0 && x.status.Some?
    && users1 == UsersAfterUpdate(users0, x)
    && docs1 == docs0.With(Residents, DocsAfterUpdate(docs0.Get(Residents), x))
  }

  /** How the service reads a resident: the repository's `find` as written,
      which leaves the phone number null, or, with `withPhone`, the read
      that fills it in (finding F5 corrected). */
  function Read(users: map<Uid, UserRecord>, coll: map<Uid, Doc>, uid: Option<Uid>, withPhone: bool): Result<Resident> {
    if withPhone then R.FindWithPhone(users, coll, uid) else R.Find(users, coll, uid)
  }

  /** `getResident(uid)`: the repository's `find`, so the phone number is
      always null however the record stores it. */
  function GetResident(users: map<Uid, UserRecord>, coll: map<Uid, Doc>, uid: Uid): (r: Result<Resident>)
    ensures r.Ok? <==> R.Find(users, coll, Some(uid)).Ok?
    ensures r.Ok? ==> R.ReadFrom(r.value, uid, users[uid], SnapshotOf(coll, uid)) && r.value.phoneNumber.None?
    ensures r.Err? ==> r == R.Find(users, coll, Some(uid))
  {
    R.Find(users, coll, Some(uid))
  }

  /** `getResident(uid)` corrected (F5): the phone number of the record. */
  function GetResidentWithPhone(users: map<Uid, UserRecord>, coll: map<Uid, Doc>, uid: Uid): (r: Result<Resident>)
    ensures r.Ok? <==> R.Find(users, coll, Some(uid)).Ok?
    ensures r.Ok? ==> r.value.uid == Some(uid) && r.value.role == Some(RESIDENT) && r.value.status.Some?
                      && r.value.phoneNumber == users[uid].phoneNumber
                      && r.value.(phoneNumber := None) == GetResident(users, coll, uid).value
  {
    R.FindWithPhone(users, coll, Some(uid))
  }

  /** `getResidents(statuses, pageable)`: the repository's page, as is. */
  method GetResidents(store: Backend, statuses: Option<seq<UserStatus>>, p: Pageable) returns (r: PagedResult<Resident>)
    requires Clamped(p)
    ensures var ids := PageIds(store, Residents, statuses, p);
            r == Listing(p, Count(store.Coll(Residents), StatusFilter(statuses)),
                         if ids.Err? then Err(ids.error) else Ok(R.PageSteps(store.users, store.Coll(Residents), ids.value)))
    ensures r.currentPage == p.page as int
  {
    r := R.FindAll(store, statuses, p);
    ghost var ids := PageIds(store, Residents, statuses, p);
    ListingFacts(p, Count(store.Coll(Residents), StatusFilter(statuses)),
                 if ids.Err? then Err(ids.error) else Ok(R.PageSteps(store.users, store.Coll(Residents), ids.value)));
  }

  /** `createResident(resident)`: one `persist`; a taken e-mail is refused
      and nothing is written. */
  method CreateResident(store: Backend, resident: Resident, now: Timestamp) returns (r: Outcome, ghost uid: Uid)
    modifies store
    ensures r.Fail? <==> EmailTaken(old(store.users), resident.email, None)
    ensures r.Fail? ==> store.users == old(store.users) && store.docs == old(store.docs)
    ensures r.Pass? ==> uid !in old(store.users) && uid != ""
                        && store.users == old(store.users)[uid := R.NewRecordOf(resident, now)]
                        && store.docs == old(store.docs).With(Residents, old(store.Coll(Residents))[uid := R.NewDocOf(resident, now)])
    ensures store.blobs == old(store.blobs)
  {
    r, uid := R.Persist(store, resident, now);
  }

  /** What `updateResident` leaves behind, given the resident it read:
      that resident with every non-null property of the input copied over
      is written back, or nothing changes. */
  ghost predicate UpdatedTo(found: Result<Resident>, resident: Resident, r: Result<Resident>,
                            users0: map<Uid, UserRecord>, docs0: Collections, users1: map<Uid, UserRecord>, docs1: Collections) {
    (found.Err? ==> r == Err(found.error) && users1 == users0 && docs1 == docs0)
    && (found.Ok? ==>
          var merged := MergeResident(resident, found.value);
          (r.Ok? <==> R.Updatable(users0, merged))
          && (r.Ok? ==> r.value == merged && WroteBack(users0, docs0, users1, docs1, merged))
          && (r.Err? ==> users1 == users0 && docs1 == docs0))
  }

  /** What `updateResidentStatus` and `deleteResident` leave behind, given
      the resident read: written back with `status`, or nothing changes. */
  ghost predicate StatusSetTo(found: Result<Resident>, status: UserStatus, r: Outcome,
                              users0: map<Uid, UserRecord>, docs0: Collections, users1: map<Uid, UserRecord>, docs1: Collections) {
    found.Ok?
    && var x := found.value.(status := Some(status));
    (r.Pass? <==> R.Updatable(users0, x))
    && (r.Pass? ==> WroteBack(users0, docs0, users1, docs1, x))
    && (r.Fail? ==> users1 == users0 && docs1 == docs0)
  }

  /** `updateResident(resident)`, reading the stored resident as `withPhone`
      says. */
  method UpdateResidentReading(store: Backend, resident: Resident, withPhone: bool) returns (r: Result<Resident>)
    modifies store
    ensures UpdatedTo(old(Read(store.users, store.Coll(Residents), resident.uid, withPhone)), resident, r,
                      old(store.users), old(store.docs), store.users, store.docs)
    ensures store.blobs == old(store.blobs)
  {
    var found :- Read(store.users, store.Coll(Residents), resident.uid, withPhone);
    var merged := MergeResident(resident, found);
    r := R.Update(store, merged);
  }

  /** `updateResident(resident)` as written: the stored resident is read
      with a null phone number, so the record ends up with the phone number
      of the input, and a null one erases it. */
  method UpdateResident(store: Backend, resident: Resident) returns (r: Result<Resident>)
    modifies store
    ensures UpdatedTo(old(R.Find(store.users, store.Coll(Residents), resident.uid)), resident, r,
                      old(store.users), old(store.docs), store.users, store.docs)
    ensures r.Ok? ==> store.users[resident.uid.value].phoneNumber == resident.phoneNumber
    ensures store.blobs == old(store.blobs)
  {
    r := UpdateResidentReading(store, resident, false);
  }

  /** `updateResident(resident)` corrected (F5): a null phone number in the
      input keeps the stored one. */
  method UpdateResidentKeepingPhone(store: Backend, resident: Resident) returns (r: Result<Resident>)
    modifies store
    ensures UpdatedTo(old(R.FindWithPhone(store.users, store.Coll(Residents), resident.uid)), resident, r,
                      old(store.users), old(store.docs), store.users, store.docs)
    ensures r.Ok? ==> store.users[resident.uid.value].phoneNumber ==
                      (if resident.phoneNumber.Some? then resident.phoneNumber else old(store.users[resident.uid.value].phoneNumber))
    ensures store.blobs == old(store.blobs)
  {
    r := UpdateResidentReading(store, resident, true);
  }

  /** `updateResidentStatus(uid, status)`, reading as `withPhone` says: the
      stored resident with exactly the given status is written back. */
  method UpdateResidentStatusReading(store: Backend, uid: Uid, status: UserStatus, withPhone: bool) returns (r: Outcome)
    modifies store
    ensures var found := old(Read(store.users, store.Coll(Residents), Some(uid), withPhone));
            (found.Err? ==> r == Fail(found.error) && store.users == old(store.users) && store.docs == old(store.docs))
            && (found.Ok? ==> StatusSetTo(found, status, r, old(store.users), old(store.docs), store.users, store.docs))
    ensures store.blobs == old(store.blobs)
  {
    var found := Read(store.users, store.Coll(Residents), Some(uid), withPhone);
    if found.Err? {
      return Fail(found.error);
    }
    var updated := R.Update(store, found.value.(status := Some(status)));
    r := if updated.Ok? then Pass else Fail(updated.error);
  }

  /** `updateResidentStatus(uid, status)` as written: a resident whose
      status is written also loses its phone number. */
  method UpdateResidentStatus(store: Backend, uid: Uid, status: UserStatus) returns (r: Outcome)
    modifies store
    ensures var found := old(R.Find(store.users, store.Coll(Residents), Some(uid)));
            (found.Err? ==> r == Fail(found.error) && store.users == old(store.users) && store.docs == old(store.docs))
            && (found.Ok? ==> StatusSetTo(found, status, r, old(store.users), old(store.docs), store.users, store.docs))
    ensures r.Pass? ==> store.users[uid].phoneNumber == None
    ensures store.blobs == old(store.blobs)
  {
    r := UpdateResidentStatusReading(store, uid, status, false);
  }

  /** `updateResidentStatus(uid, status)` corrected (F5): the phone number
      is kept. */
  method UpdateResidentStatusKeepingPhone(store: Backend, uid: Uid, status: UserStatus) returns (r: Outcome)
    modifies store
    ensures var found := old(R.FindWithPhone(store.users, store.Coll(Residents), Some(uid)));
            (found.Err? ==> r == Fail(found.error) && store.users == old(store.users) && store.docs == old(store.docs))
            && (found.Ok? ==> StatusSetTo(found, status, r, old(store.users), old(store.docs), store.users, store.docs))
    ensures r.Pass? ==> store.users[uid].phoneNumber == old(store.users[uid].phoneNumber)
    ensures store.blobs == old(store.blobs)
  {
    r := UpdateResidentStatusReading(store, uid, status, true);
  }

  /** `deleteResident(uid)`, reading as `withPhone` says: a soft delete. An
      already deleted resident throws and nothing is written; any other is
      written back as DELETED. */
  method DeleteResidentReading(store: Backend, uid: Uid, withPhone: bool) returns (r: Outcome)
    modifies store
    ensures var found := old(Read(store.users, store.Coll(Residents), Some(uid), withPhone));
            (found.Err? ==> r == Fail(found.error))
            && (found.Ok? && found.value.status == Some(DELETED) ==> r == Fail(ALREADY_DELETED))
            && (r.Fail? ==> store.users == old(store.users) && store.docs == old(store.docs))
            && (found.Ok? && found.value.status != Some(DELETED) ==>
                  StatusSetTo(found, DELETED, r, old(store.users), old(store.docs), store.users, store.docs))
    ensures store.blobs == old(store.blobs)
  {
    var found := Read(store.users, store.Coll(Residents), Some(uid), withPhone);
    if found.Err? {
      return Fail(found.error);
    }
    if found.value.status == Some(DELETED) {
      return Fail(ALREADY_DELETED);
    }
    var updated := R.Update(store, found.value.(status := Some(DELETED)));
    r := if updated.Ok? then Pass else Fail(updated.error);
  }

  /** `deleteResident(uid)` as written: the soft delete also erases the
      phone number. */
  method DeleteResident(store: Backend, uid: Uid) returns (r: Outcome)
    modifies store
    ensures var found := old(R.Find(store.users, store.Coll(Residents), Some(uid)));
            (found.Err? ==> r == Fail(found.error))
            && (found.Ok? && found.value.status == Some(DELETED) ==> r == Fail(ALREADY_DELETED))
            && (r.Fail? ==> store.users == old(store.users) && store.docs == old(store.docs))
            && (found.Ok? && found.value.status != Some(DELETED) ==>
                  StatusSetTo(found, DELETED, r, old(store.users), old(store.docs), store.users, store.docs))
    ensures r.Pass? ==> store.users[uid].phoneNumber == None
    ensures store.blobs == old(store.blobs)
  {
    r := DeleteResidentReading(store, uid, false);
  }

  /** `deleteResident(uid)` corrected (F5): the phone number is kept. */
  method DeleteResidentKeepingPhone(store: Backend, uid: Uid) returns (r: Outcome)
    modifies store
    ensures var found := old(R.FindWithPhone(store.users, store.Coll(Residents), Some(uid)));
            (found.Err? ==> r == Fail(found.error))
            && (found.Ok? && found.value.status == Some(DELETED) ==> r == Fail(ALREADY_DELETED))
            && (r.Fail? ==> store.users == old(store.users) && store.docs == old(store.docs))
            && (found.Ok? && found.value.status != Some(DELETED) ==>
                  StatusSetTo(found, DELETED, r, old(store.users), old(store.docs), store.users, store.docs))
    ensures r.Pass? ==> store.users[uid].phoneNumber == old(store.users[uid].phoneNumber)
    ensures store.blobs == old(store.blobs)
  {
    r := DeleteResidentReading(store, uid, true);
  }

  /** A resident read and written back with a new status is updatable
      exactly when its record carries a status claim, and is then read back
      the same way with that status and otherwise as it was; so after a soft
      delete the resident reads as DELETED and a second delete throws. This
      holds for the read as written and for the corrected one alike: as
      written, the phone number is null before and after. */
  lemma {:induction false} StatusChangeReadsBack(users: map<Uid, UserRecord>, coll: map<Uid, Doc>, uid: Uid, s: UserStatus, withPhone: bool)
    requires Read(users, coll, Some(uid), withPhone).Ok?
    ensures var x := Read(users, coll, Some(uid), withPhone).value.(status := Some(s));
            (R.Updatable(users, x) <==> "status" in users[uid].claims)
            && ("status" in users[uid].claims ==>
                  Read(UsersAfterUpdate(users, x), DocsAfterUpdate(coll, x), Some(uid), withPhone) == Ok(x))
  {
    var x := Read(users, coll, Some(uid), withPhone).value.(status := Some(s));
    var rec := users[uid];
    assert uid in coll by {
      assert StatusValueOf(GetString(SnapshotOf(coll, uid), "status")).Ok?;
    }
    if "status" in rec.claims {
      var users1 := UsersAfterUpdate(users, x);
      var coll1 := DocsAfterUpdate(coll, x);
      var wanted := R.Wanted(x, s);
      PatchMakesAgree(wanted, coll[uid]);
      assert "status" in wanted && "firstName" in wanted && "lastName" in wanted;
      assert coll1[uid] == Patch(coll[uid], Diff(wanted, Some(coll[uid])));
      assert GetString(Some(coll1[uid]), "status") == Some(StatusName(s));
      StatusRoundTrip(s);
      assert users1[uid].claims["role"] == rec.claims["role"];
    }
  }

  /** F5, as the repository's `find` reads: a resident whose record has a
      phone number loses it when written back with a new status, as
      `deleteResident` and `updateResidentStatus` do. */
  lemma StatusChangeErasesPhone(users: map<Uid, UserRecord>, coll: map<Uid, Doc>, uid: Uid, s: UserStatus)
    requires R.Find(users, coll, Some(uid)).Ok? && users[uid].phoneNumber.Some?
    ensures var x := R.Find(users, coll, Some(uid)).value.(status := Some(s));
            UsersAfterUpdate(users, x)[uid].phoneNumber == None
  {
  }

  /** F5 corrected: read with its phone number, the resident keeps it. */
  lemma StatusChangeKeepsPhone(users: map<Uid, UserRecord>, coll: map<Uid, Doc>, uid: Uid, s: UserStatus)
    requires R.FindWithPhone(users, coll, Some(uid)).Ok?
    ensures var x := R.FindWithPhone(users, coll, Some(uid)).value.(status := Some(s));
            UsersAfterUpdate(users, x)[uid].phoneNumber == users[uid].phoneNumber
            && UsersAfterUpdate(users, x)[uid].email == users[uid].email
  {
  }
}
