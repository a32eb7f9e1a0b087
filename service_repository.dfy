/** repository/ServiceRepository.java: services (the organisations that
    handle reports) are identity records with the claim role=SERVICE plus a
    document in the services collection holding name, description, address,
    status and creation date. */
module ServiceRepository {
  import opened Common
  import opened Paging
  import opened Firebase
  import opened Entities
  import opened PagedQueries

  const ROLE := RoleName(SERVICE)

  /** The claims a new service gets. */
  const NEW_CLAIMS: map<string, string> := map["role" := RoleName(SERVICE), "status" := StatusName(ACTIVE)]

  /** `makeService(record, snapshot)`: the status comes from the document and
      must name a status. The password is not filled. */
  function MakeService(uid: Uid, rec: UserRecord, snap: Option<Doc>): (r: Result<Service>)
    ensures r.Ok? <==> StatusValueOf(GetString(snap, "status")).Ok?
    ensures r.Ok? ==> ReadFrom(r.value, uid, rec, snap)
    ensures r.Err? ==> r.error == StatusValueOf(GetString(snap, "status")).error
  {
    var status :- StatusValueOf(GetString(snap, "status"));
    Ok(Service(Some(uid), rec.email, None, rec.photoUrl, rec.phoneNumber, Some(SERVICE), Some(status),
               Some(rec.creationTimestamp), GetString(snap, "name"), GetString(snap, "description"),
               GetString(snap, "address")))
  }

  /** Where each property of a service read from the backends comes from. */
  predicate ReadFrom(x: Service, uid: Uid, rec: UserRecord, snap: Option<Doc>) {
    x.uid == Some(uid) && x.role == Some(SERVICE)
    && x.status.Some? && GetString(snap, "status") == Some(StatusName(x.status.value))
    && x.email == rec.email && x.photo == rec.photoUrl && x.creationDate == Some(rec.creationTimestamp)
    && x.name == GetString(snap, "name") && x.description == GetString(snap, "description")
    && x.address == GetString(snap, "address")
    && x.phoneNumber == rec.phoneNumber && x.password.None?
  }

  /** `find(uid)`: only a record whose role claim is SERVICE is a service;
      a record without claims is not; a missing document leaves the status
      null and `valueOf` throws. */
  function Find(users: map<Uid, UserRecord>, coll: map<Uid, Doc>, uid: Option<Uid>): (r: Result<Service>)
    ensures r.Ok? ==> uid.Some? && uid.value in users && HasRoleClaim(users[uid.value].claims, ROLE) == Ok(true)
    ensures r.Ok? ==> ReadFrom(r.value, uid.value, users[uid.value], SnapshotOf(coll, uid.value))
    ensures GetUserIn(users, uid).Err? ==> r == Err(GetUserIn(users, uid).error)
    ensures GetUserIn(users, uid).Ok? && HasRoleClaim(users[uid.value].claims, ROLE) == Ok(false) ==>
              r == Err(EntityNotFound("Service", uid))
    ensures GetUserIn(users, uid).Ok? && HasRoleClaim(users[uid.value].claims, ROLE) == Ok(true) ==>
              (r.Ok? <==> StatusValueOf(GetString(SnapshotOf(coll, uid.value), "status")).Ok?)
  {
    var rec :- GetUserIn(users, uid);
    var isService :- HasRoleClaim(rec.claims, ROLE);
    if !isService then Err(EntityNotFound("Service", uid))
    else MakeService(uid.value, rec, SnapshotOf(coll, uid.value))
  }

  // ---------------------------------------------------------------------
  // findAll

  /** What the loop of `findAll` does with one document of the page. */
  function PageStep(users: map<Uid, UserRecord>, coll: map<Uid, Doc>, id: Uid): Step<Service> {
    match GetUserIn(users, Some(id))
    case Err(e) => Abort(e)
    case Ok(rec) =>
      match HasRoleClaim(rec.claims, ROLE)
      case Err(e) => Abort(e)
      case Ok(isService) =>
        if !isService then Skip
        else match MakeService(id, rec, SnapshotOf(coll, id))
          case Err(e) => Abort(e)
          case Ok(x) => Keep(x)
  }

  function PageSteps(users: map<Uid, UserRecord>, coll: map<Uid, Doc>, ids: seq<Uid>): (s: seq<Step<Service>>)
    ensures |s| == |ids|
    ensures forall i :: 0 <= i < |ids| ==> s[i] == PageStep(users, coll, ids[i])
  {
    seq(|ids|, i requires 0 <= i < |ids| => PageStep(users, coll, ids[i]))
  }

  /** The loop agrees with `find`: a document is kept exactly when `find`
      returns its service, skipped exactly when `find` reports that it is
      not a service, and stops the loop with `find`'s exception otherwise. */
  lemma PageStepIsFind(users: map<Uid, UserRecord>, coll: map<Uid, Doc>, id: Uid)
    ensures PageStep(users, coll, id).Keep? <==> Find(users, coll, Some(id)).Ok?
    ensures PageStep(users, coll, id).Keep? ==> PageStep(users, coll, id).item == Find(users, coll, Some(id)).value
    ensures PageStep(users, coll, id).Skip? <==> Find(users, coll, Some(id)) == Err(EntityNotFound("Service", Some(id)))
    ensures PageStep(users, coll, id).Abort? ==> Find(users, coll, Some(id)) == Err(PageStep(users, coll, id).error)
  {
  }

  /** The for-loop of `findAll` over the documents of one page. */
  method CollectPage(store: Backend, ids: seq<Uid>) returns (c: Collected<Service>)
    requires forall id :: id in ids ==> id in store.Coll(Services)
    ensures c == Collect(PageSteps(store.users, store.Coll(Services), ids))
  {
    ghost var steps := PageSteps(store.users, store.Coll(Services), ids);
    var services: seq<Service> := [];
    for i := 0 to |ids|
      invariant Collect(steps[..i]) == Collected(services, None)
    {
      CollectNext(steps, i, services);
      var rec := store.GetUser(Some(ids[i]));
      if rec.Err? {
        return Collected(services, Some(rec.error));
      }
      var isService := HasRoleClaim(rec.value.claims, ROLE);
      if isService.Err? {
        return Collected(services, Some(isService.error));
      }
      if !isService.value {
        continue;
      }
      var service := MakeService(ids[i], rec.value, store.Snapshot(Services, ids[i]));
      if service.Err? {
        return Collected(services, Some(service.error));
      }
      services := services + [service.value];
    }
    assert steps[..|ids|] == steps;
    c := Collected(services, None);
  }

  /** `findAll(statuses, pageable)`. */
  method FindAll(store: Backend, statuses: Option<seq<UserStatus>>, p: Pageable) returns (r: PagedResult<Service>)
    requires Clamped(p)
    ensures var ids := PageIds(store, Services, statuses, p);
            r == Listing(p, Count(store.Coll(Services), StatusFilter(statuses)),
                         if ids.Err? then Err(ids.error) else Ok(PageSteps(store.users, store.Coll(Services), ids.value)))
  {
    var total := Count(store.Coll(Services), StatusFilter(statuses));
    if total.Err? {
      return PagedResult([], p.page as int, 0, 0);
    }
    var query := ItemsQuery(statuses, p);
    if query.Err? {
      return PagedResult([], p.page as int, 0, 0);
    }
    var documents := store.RunQuery(Services, query.value);
    if documents.Err? {
      return PagedResult([], p.page as int, 0, 0);
    }
    var c := CollectPage(store, documents.value);
    if c.error.Some? {
      return PagedResult(c.items, p.page as int, 0, 0);
    }
    r := PagedResult(c.items, p.page as int, total.value, CeilDiv(total.value, p.size as int));
  }

  /** Every service on a page is what `find` returns for one of the page's
      documents, so it carries the SERVICE role and its record's role claim
      is SERVICE. */
  lemma {:induction false} FindAllItemsAreFound(users: map<Uid, UserRecord>, coll: map<Uid, Doc>, p: Pageable, total: Result<nat>, ids: seq<Uid>)
    requires Clamped(p)
    ensures forall x: Service :: x in Listing(p, total, Ok(PageSteps(users, coll, ids))).items ==>
              exists i :: 0 <= i < |ids| && Find(users, coll, Some(ids[i])) == Ok(x)
    ensures forall x: Service :: x in Listing(p, total, Ok(PageSteps(users, coll, ids))).items ==>
              x.role == Some(SERVICE) && x.uid.Some? && x.uid.value in users
              && HasRoleClaim(users[x.uid.value].claims, ROLE) == Ok(true)
  {
    var steps := PageSteps(users, coll, ids);
    ListingFacts(p, total, Ok(steps));
    forall x | x in Listing(p, total, Ok(steps)).items
      ensures exists i :: 0 <= i < |ids| && Find(users, coll, Some(ids[i])) == Ok(x)
    {
      assert Keep(x) in steps;
      var i :| 0 <= i < |steps| && steps[i] == Keep(x);
      PageStepIsFind(users, coll, ids[i]);
    }
  }

  // ---------------------------------------------------------------------
  // persist

  /** The record `persist` creates: the display name is the service's name;
      the e-mail counts as verified; no phone number. */
  function NewRecordOf(service: Service, now: Timestamp): UserRecord {
    NewRecord(CreateRequest(service.email, service.password, service.name, None, true), now)
      .(claims := NEW_CLAIMS)
  }

  /** The document `persist` writes. */
  function NewDocOf(service: Service, now: Timestamp): Doc {
    map["name" := StrValue(service.name), "description" := StrValue(service.description),
        "address" := StrValue(service.address),
        "creationDate" := Date(now), "status" := Str(StatusName(ACTIVE))]
  }

  /** `persist(service)`: an identity record (which fails when the e-mail is
      taken), its claims, then the document under the new uid. `now` is the
      creation time Firebase assigns; `uid` is the id it hands out. */
  method Persist(store: Backend, service: Service, now: Timestamp) returns (r: Outcome, ghost uid: Uid)
    modifies store
    ensures r.Fail? <==> EmailTaken(old(store.users), service.email, None)
    ensures r.Fail? ==> store.users == old(store.users) && store.docs == old(store.docs)
    ensures r.Pass? ==> uid !in old(store.users) && uid != ""
                        && store.users == old(store.users)[uid := NewRecordOf(service, now)]
                        && store.docs == old(store.docs).With(Services, old(store.Coll(Services))[uid := NewDocOf(service, now)])
    ensures store.blobs == old(store.blobs)
  {
    var created := store.CreateUser(CreateRequest(service.email, service.password, service.name, None, true), now);
    if created.Err? {
      return Fail(created.error), "";
    }
    var id := created.value;
    uid := id;
    store.SetCustomUserClaims(id, NEW_CLAIMS);
    store.SetDocument(Services, id, NewDocOf(service, now));
    r := Pass;
  }

  /** What `persist` writes, `find` reads back: the service's e-mail, name,
      description and address, the SERVICE role, the ACTIVE status and the
      creation time; no password, photo or phone number. */
  lemma PersistThenFind(users: map<Uid, UserRecord>, coll: map<Uid, Doc>, uid: Uid, service: Service, now: Timestamp)
    requires uid != ""
    ensures Find(users[uid := NewRecordOf(service, now)], coll[uid := NewDocOf(service, now)], Some(uid))
         == Ok(Service(Some(uid), service.email, None, None, None, Some(SERVICE), Some(ACTIVE), Some(now),
                       service.name, service.description, service.address))
  {
  }

  // ---------------------------------------------------------------------
  // update

  /** The identity record `update` leaves behind, claims aside: the display
      name (the service's name), e-mail and phone number of the service, the
      e-mail marked verified when it changes, the password when one is given. */
  function UpdatedRecord(rec: UserRecord, service: Service): UserRecord {
    rec.(displayName := service.name,
         email := service.email,
         emailVerified := if service.email != rec.email then true else rec.emailVerified,
         password := if service.password.Some? then service.password else rec.password,
         phoneNumber := service.phoneNumber)
  }

  /** The conditional setters of the update request. */
  method IdentityRequest(uid: Uid, rec: UserRecord, service: Service, claims: map<string, string>) returns (req: UpdateRequest)
    ensures req.uid == uid && req.photoUrl == Leave && req.claims == Set(claims)
    ensures req.displayName.Set? <==> rec.displayName != service.name
    ensures req.email.Set? <==> service.email != rec.email
    ensures req.emailVerified.Set? <==> service.email != rec.email
    ensures req.password.Set? <==> service.password.Some?
    ensures req.phoneNumber.Set? <==> service.phoneNumber != rec.phoneNumber
    ensures ApplyUpdate(rec, req) == UpdatedRecord(rec, service).(claims := claims)
  {
    req := NoChange(uid);
    if service.name != rec.displayName {
      req := req.(displayName := Set(service.name));
    }
    if service.email != rec.email {
      req := req.(email := Set(service.email), emailVerified := Set(true));
    }
    if service.password.Some? {
      req := req.(password := Set(service.password));
    }
    if service.phoneNumber != rec.phoneNumber {
      req := req.(phoneNumber := Set(service.phoneNumber));
    }
    req := req.(claims := Set(claims));
  }

  /** The document fields `update` compares, and the values it wants. */
  function Wanted(service: Service, status: UserStatus): map<string, Wanted> {
    map["name" := WantString(service.name), "description" := WantString(service.description),
        "address" := WantString(service.address), "status" := WantString(Some(StatusName(status)))]
  }

  /** The conditional puts of the document patch. */
  method DocumentPatch(service: Service, status: UserStatus, snap: Option<Doc>) returns (patch: map<string, Value>)
    ensures patch == Diff(Wanted(service, status), snap)
  {
    patch := map[];
    DiffNone(snap);
    DiffExtend(map[], snap, "name", WantString(service.name));
    if service.name != GetString(snap, "name") {
      patch := patch["name" := StrValue(service.name)];
    }
    ghost var wanted := map["name" := WantString(service.name)];
    DiffExtend(wanted, snap, "description", WantString(service.description));
    if service.description != GetString(snap, "description") {
      patch := patch["description" := StrValue(service.description)];
    }
    wanted := wanted["description" := WantString(service.description)];
    DiffExtend(wanted, snap, "address", WantString(service.address));
    if service.address != GetString(snap, "address") {
      patch := patch["address" := StrValue(service.address)];
    }
    wanted := wanted["address" := WantString(service.address)];
    DiffExtend(wanted, snap, "status", WantString(Some(StatusName(status))));
    if Some(StatusName(status)) != GetString(snap, "status") {
      patch := patch["status" := Str(StatusName(status))];
    }
    assert wanted["status" := WantString(Some(StatusName(status)))] == Wanted(service, status);
  }

  /** When `update` gets through: the uid names a record, the service has a
      status, the record has a status claim, and a changed e-mail or phone
      number does not belong to another user. */
  predicate Updatable(users: map<Uid, UserRecord>, service: Service) {
    GetUserIn(users, service.uid).Ok? && service.status.Some?
    && var rec := users[service.uid.value];
    "status" in rec.claims
    && !(service.email != rec.email && EmailTaken(users, service.email, service.uid))
    && !(service.phoneNumber != rec.phoneNumber && PhoneTaken(users, service.phoneNumber, service.uid))
  }

  /** `update(service)`: the identity record with the status claim, then the
      document patch if it is not empty; returns its argument. Nothing is
      written when it fails. */
  method Update(store: Backend, service: Service) returns (r: Result<Service>)
    modifies store
    ensures r.Ok? <==> Updatable(old(store.users), service)
    ensures r.Ok? ==> r.value == service
    ensures r.Err? ==> store.users == old(store.users) && store.docs == old(store.docs)
    ensures r.Ok? ==>
              var uid := service.uid.value;
              var patch := Diff(Wanted(service, service.status.value), old(store.Snapshot(Services, uid)));
              var rec := old(store.users)[uid];
              store.users == old(store.users)[uid := UpdatedRecord(rec, service).(claims := rec.claims["status" := StatusName(service.status.value)])]
              && store.docs == old(store.docs).With(Services, UpdateIn(old(store.Coll(Services)), uid, patch))
              && IdentityThenPatch(old(store.calls), store.calls, uid, Services, patch)
    ensures store.blobs == old(store.blobs)
  {
    var rec :- store.GetUser(service.uid);
    var uid := service.uid.value;
    if service.status.None? {
      return Err(NullPointer);
    }
    var status := service.status.value;
    var patch := DocumentPatch(service, status, store.Snapshot(Services, uid));
    var current :- ClaimString(rec.claims, "status");
    var claims := rec.claims["status" := StatusName(status)];
    var req := IdentityRequest(uid, rec, service, claims);
    var updated := store.UpdateUser(req);
    if updated.Fail? {
      return Err(updated.error);
    }
    if patch != map[] {
      store.UpdateDocument(Services, uid, patch);
    } else {
      UpdateInEmpty(store.Coll(Services), uid);
    }
    r := Ok(service);
  }

  /** Writing back a service just read changes no document field, and the
      identity request sets no e-mail and no phone number, so it cannot fail
      on a conflict. */
  lemma {:induction false} FoundWritesBackUnchanged(users: map<Uid, UserRecord>, coll: map<Uid, Doc>, uid: Uid)
    requires Find(users, coll, Some(uid)).Ok?
    ensures var x := Find(users, coll, Some(uid)).value;
            Diff(Wanted(x, x.status.value), SnapshotOf(coll, uid)) == map[]
            && x.email == users[uid].email && x.phoneNumber == users[uid].phoneNumber
  {
    var x := Find(users, coll, Some(uid)).value;
    DiffEmptyIff(Wanted(x, x.status.value), SnapshotOf(coll, uid));
  }

  // ---------------------------------------------------------------------
  // delete

  /** `delete(uid)`: the identity record, then the document; a missing
      record throws before the document is touched. */
  method Delete(store: Backend, uid: Uid) returns (r: Outcome)
    modifies store
    ensures r.Pass? <==> uid in old(store.users)
    ensures store.users == old(store.users) - {uid}
    ensures r.Pass? ==> store.docs == old(store.docs).With(Services, old(store.Coll(Services)) - {uid})
    ensures r.Fail? ==> store.docs == old(store.docs)
    ensures store.blobs == old(store.blobs)
  {
    r := store.DeleteUser(uid);
    if r.Fail? {
      return;
    }
    store.DeleteDocument(Services, uid);
  }

  // ---------------------------------------------------------------------
  // count

  /** `count()`: the number of service documents whose status is ACTIVE
      (the enum is stored by its name). An equality filter never fails here,
      so the fallback to 0 is not reached. */
  function CountActive(coll: map<Uid, Doc>): (n: nat)
    ensures n == |set id | id in coll && Field(Some(coll[id]), "status") == Str(StatusName(ACTIVE))|
    ensures n <= |coll|
  {
    assert Select(coll, FieldEquals("status", Str(StatusName(ACTIVE)))).Keys
        == set id | id in coll && Field(Some(coll[id]), "status") == Str(StatusName(ACTIVE));
    Count(coll, FieldEquals("status", Str(StatusName(ACTIVE)))).value
  }
}
