/** repository/AnalystRepository.java: analysts are identity records with
    the claim role=ANALYST plus a document in the analysts collection holding
    name, description, status and creation date. */
module AnalystRepository {
  import opened Common
  import opened Paging
  import opened Firebase
  import opened Entities
  import opened PagedQueries

  const ROLE := RoleName(ANALYST)

  /** The claims a new analyst gets. */
  const NEW_CLAIMS: map<string, string> := map["role" := RoleName(ANALYST), "status" := StatusName(ACTIVE)]

  /** `makeAnalyst(record, snapshot)`: the status comes from the document and
      must name a status. Neither the password nor the phone number is filled. */
  function MakeAnalyst(uid: Uid, rec: UserRecord, snap: Option<Doc>): (r: Result<Analyst>)
    ensures r.Ok? <==> StatusValueOf(GetString(snap, "status")).Ok?
    ensures r.Ok? ==> ReadFrom(r.value, uid, rec, snap)
    ensures r.Err? ==> r.error == StatusValueOf(GetString(snap, "status")).error
  {
    var status :- StatusValueOf(GetString(snap, "status"));
    Ok(Analyst(Some(uid), rec.email, None, rec.photoUrl, None, Some(ANALYST), Some(status),
               Some(rec.creationTimestamp), GetString(snap, "name"), GetString(snap, "description")))
  }

  /** Where each property of an analyst read from the backends comes from. */
  predicate ReadFrom(x: Analyst, uid: Uid, rec: UserRecord, snap: Option<Doc>) {
    x.uid == Some(uid) && x.role == Some(ANALYST)
    && x.status.Some? && GetString(snap, "status") == Some(StatusName(x.status.value))
    && x.email == rec.email && x.photo == rec.photoUrl && x.creationDate == Some(rec.creationTimestamp)
    && x.name == GetString(snap, "name") && x.description == GetString(snap, "description")
    && x.phoneNumber.None? && x.password.None?
  }

  /** `find(uid)`: only a record whose role claim is ANALYST is an analyst;
      a record without claims is not; a missing document leaves the status
      null and `valueOf` throws. */
  function Find(users: map<Uid, UserRecord>, coll: map<Uid, Doc>, uid: Option<Uid>): (r: Result<Analyst>)
    ensures r.Ok? ==> uid.Some? && uid.value in users && HasRoleClaim(users[uid.value].claims, ROLE) == Ok(true)
    ensures r.Ok? ==> ReadFrom(r.value, uid.value, users[uid.value], SnapshotOf(coll, uid.value))
    ensures GetUserIn(users, uid).Err? ==> r == Err(GetUserIn(users, uid).error)
    ensures GetUserIn(users, uid).Ok? && HasRoleClaim(users[uid.value].claims, ROLE) == Ok(false) ==>
              r == Err(EntityNotFound("Analyst", uid))
    ensures GetUserIn(users, uid).Ok? && HasRoleClaim(users[uid.value].claims, ROLE) == Ok(true) ==>
              (r.Ok? <==> StatusValueOf(GetString(SnapshotOf(coll, uid.value), "status")).Ok?)
  {
    var rec :- GetUserIn(users, uid);
    var isAnalyst :- HasRoleClaim(rec.claims, ROLE);
    if !isAnalyst then Err(EntityNotFound("Analyst", uid))
    else MakeAnalyst(uid.value, rec, SnapshotOf(coll, uid.value))
  }

  // ---------------------------------------------------------------------
  // findAll

  /** What the loop of `findAll` does with one document of the page. */
  function PageStep(users: map<Uid, UserRecord>, coll: map<Uid, Doc>, id: Uid): Step<Analyst> {
    match GetUserIn(users, Some(id))
    case Err(e) => Abort(e)
    case Ok(rec) =>
      match HasRoleClaim(rec.claims, ROLE)
      case Err(e) => Abort(e)
      case Ok(isAnalyst) =>
        if !isAnalyst then Skip
        else match MakeAnalyst(id, rec, SnapshotOf(coll, id))
          case Err(e) => Abort(e)
          case Ok(x) => Keep(x)
  }

  function PageSteps(users: map<Uid, UserRecord>, coll: map<Uid, Doc>, ids: seq<Uid>): (s: seq<Step<Analyst>>)
    ensures |s| == |ids|
    ensures forall i :: 0 <= i < |ids| ==> s[i] == PageStep(users, coll, ids[i])
  {
    seq(|ids|, i requires 0 <= i < |ids| => PageStep(users, coll, ids[i]))
  }

  /** The loop agrees with `find`: a document is kept exactly when `find`
      returns its analyst, skipped exactly when `find` reports that it is
      not an analyst, and stops the loop with `find`'s exception otherwise. */
  lemma PageStepIsFind(users: map<Uid, UserRecord>, coll: map<Uid, Doc>, id: Uid)
    ensures PageStep(users, coll, id).Keep? <==> Find(users, coll, Some(id)).Ok?
    ensures PageStep(users, coll, id).Keep? ==> PageStep(users, coll, id).item == Find(users, coll, Some(id)).value
    ensures PageStep(users, coll, id).Skip? <==> Find(users, coll, Some(id)) == Err(EntityNotFound("Analyst", Some(id)))
    ensures PageStep(users, coll, id).Abort? ==> Find(users, coll, Some(id)) == Err(PageStep(users, coll, id).error)
  {
  }

  /** The for-loop of `findAll` over the documents of one page. */
  method CollectPage(store: Backend, ids: seq<Uid>) returns (c: Collected<Analyst>)
    requires forall id :: id in ids ==> id in store.Coll(Analysts)
    ensures c == Collect(PageSteps(store.users, store.Coll(Analysts), ids))
  {
    ghost var steps := PageSteps(store.users, store.Coll(Analysts), ids);
    var analysts: seq<Analyst> := [];
    for i := 0 to |ids|
      invariant Collect(steps[..i]) == Collected(analysts, None)
    {
      CollectNext(steps, i, analysts);
      var rec := store.GetUser(Some(ids[i]));
      if rec.Err? {
        return Collected(analysts, Some(rec.error));
      }
      var isAnalyst := HasRoleClaim(rec.value.claims, ROLE);
      if isAnalyst.Err? {
        return Collected(analysts, Some(isAnalyst.error));
      }
      if !isAnalyst.value {
        continue;
      }
      var analyst := MakeAnalyst(ids[i], rec.value, store.Snapshot(Analysts, ids[i]));
      if analyst.Err? {
        return Collected(analysts, Some(analyst.error));
      }
      analysts := analysts + [analyst.value];
    }
    assert steps[..|ids|] == steps;
    c := Collected(analysts, None);
  }

  /** `findAll(statuses, pageable)`. */
  method FindAll(store: Backend, statuses: Option<seq<UserStatus>>, p: Pageable) returns (r: PagedResult<Analyst>)
    requires Clamped(p)
    ensures var ids := PageIds(store, Analysts, statuses, p);
            r == Listing(p, Count(store.Coll(Analysts), StatusFilter(statuses)),
                         if ids.Err? then Err(ids.error) else Ok(PageSteps(store.users, store.Coll(Analysts), ids.value)))
  {
    var total := Count(store.Coll(Analysts), StatusFilter(statuses));
    if total.Err? {
      return PagedResult([], p.page as int, 0, 0);
    }
    var query := ItemsQuery(statuses, p);
    if query.Err? {
      return PagedResult([], p.page as int, 0, 0);
    }
    var documents := store.RunQuery(Analysts, query.value);
    if documents.Err? {
      return PagedResult([], p.page as int, 0, 0);
    }
    var c := CollectPage(store, documents.value);
    if c.error.Some? {
      return PagedResult(c.items, p.page as int, 0, 0);
    }
    r := PagedResult(c.items, p.page as int, total.value, CeilDiv(total.value, p.size as int));
  }

  /** Every analyst on a page is what `find` returns for one of the page's
      documents, so it carries the ANALYST role and its record's role claim
      is ANALYST. */
  lemma {:induction false} FindAllItemsAreFound(users: map<Uid, UserRecord>, coll: map<Uid, Doc>, p: Pageable, total: Result<nat>, ids: seq<Uid>)
    requires Clamped(p)
    ensures forall x: Analyst :: x in Listing(p, total, Ok(PageSteps(users, coll, ids))).items ==>
              exists i :: 0 <= i < |ids| && Find(users, coll, Some(ids[i])) == Ok(x)
    ensures forall x: Analyst :: x in Listing(p, total, Ok(PageSteps(users, coll, ids))).items ==>
              x.role == Some(ANALYST) && x.uid.Some? && x.uid.value in users
              && HasRoleClaim(users[x.uid.value].claims, ROLE) == Ok(true)
  {
    var steps := PageSteps(users, coll, ids);
    ListingFacts(p, total, Ok(steps));
    forall x | x in Listing(p, total, Ok(steps)).items
      ensures exists i :: 0 <= i < |ids| && Find(users, coll, Some(ids[i])) == Ok(x)
    {
      assert Keep(x) in steps;
      var i :| 0 <= i < |steps| && steps[i] == Keep(x);
      PageStepIsFind(users, coll, ids[i]);
    }
  }

  // ---------------------------------------------------------------------
  // persist

  /** The record `persist` creates: the display name is the analyst's name;
      the e-mail counts as verified; no phone number. */
  function NewRecordOf(analyst: Analyst, now: Timestamp): UserRecord {
    NewRecord(CreateRequest(analyst.email, analyst.password, analyst.name, None, true), now)
      .(claims := NEW_CLAIMS)
  }

  /** The document `persist` writes. */
  function NewDocOf(analyst: Analyst, now: Timestamp): Doc {
    map["name" := StrValue(analyst.name), "description" := StrValue(analyst.description),
        "creationDate" := Date(now), "status" := Str(StatusName(ACTIVE))]
  }

  /** `persist(analyst)`: an identity record (which fails when the e-mail is
      taken), its claims, then the document under the new uid. `now` is the
      creation time Firebase assigns; `uid` is the id it hands out. */
  method Persist(store: Backend, analyst: Analyst, now: Timestamp) returns (r: Outcome, ghost uid: Uid)
    modifies store
    ensures r.Fail? <==> EmailTaken(old(store.users), analyst.email, None)
    ensures r.Fail? ==> store.users == old(store.users) && store.docs == old(store.docs)
    ensures r.Pass? ==> uid !in old(store.users) && uid != ""
                        && store.users == old(store.users)[uid := NewRecordOf(analyst, now)]
                        && store.docs == old(store.docs).With(Analysts, old(store.Coll(Analysts))[uid := NewDocOf(analyst, now)])
    ensures store.blobs == old(store.blobs)
  {
    var created := store.CreateUser(CreateRequest(analyst.email, analyst.password, analyst.name, None, true), now);
    if created.Err? {
      return Fail(created.error), "";
    }
    var id := created.value;
    uid := id;
    store.SetCustomUserClaims(id, NEW_CLAIMS);
    store.SetDocument(Analysts, id, NewDocOf(analyst, now));
    r := Pass;
  }

  /** What `persist` writes, `find` reads back: the analyst's e-mail, name
      and description, the ANALYST role, the ACTIVE status and the
      creation time; no password, photo or phone number. */
  lemma PersistThenFind(users: map<Uid, UserRecord>, coll: map<Uid, Doc>, uid: Uid, analyst: Analyst, now: Timestamp)
    requires uid != ""
    ensures Find(users[uid := NewRecordOf(analyst, now)], coll[uid := NewDocOf(analyst, now)], Some(uid))
         == Ok(Analyst(Some(uid), analyst.email, None, None, None, Some(ANALYST), Some(ACTIVE), Some(now),
                       analyst.name, analyst.description))
  {
  }

  // ---------------------------------------------------------------------
  // update

  /** The identity record `update` leaves behind, claims aside: the display
      name (the analyst's name) and e-mail of the analyst, the e-mail marked
      verified when it changes, the password when one is given. The phone
      number is left alone. */
  function UpdatedRecord(rec: UserRecord, analyst: Analyst): UserRecord {
    rec.(displayName := analyst.name,
         email := analyst.email,
         emailVerified := if analyst.email != rec.email then true else rec.emailVerified,
         password := if analyst.password.Some? then analyst.password else rec.password)
  }

  /** The conditional setters of the update request. */
  method IdentityRequest(uid: Uid, rec: UserRecord, analyst: Analyst, claims: map<string, string>) returns (req: UpdateRequest)
    ensures req.uid == uid && req.photoUrl == Leave && req.claims == Set(claims)
    ensures req.displayName.Set? <==> rec.displayName != analyst.name
    ensures req.email.Set? <==> analyst.email != rec.email
    ensures req.emailVerified.Set? <==> analyst.email != rec.email
    ensures req.password.Set? <==> analyst.password.Some?
    ensures req.phoneNumber == Leave
    ensures ApplyUpdate(rec, req) == UpdatedRecord(rec, analyst).(claims := claims)
  {
    req := NoChange(uid);
    if analyst.name != rec.displayName {
      req := req.(displayName := Set(analyst.name));
    }
    if analyst.email != rec.email {
      req := req.(email := Set(analyst.email), emailVerified := Set(true));
    }
    if analyst.password.Some? {
      req := req.(password := Set(analyst.password));
    }
    req := req.(claims := Set(claims));
  }

  /** The document fields `update` compares, and the values it wants. */
  function Wanted(analyst: Analyst, status: UserStatus): map<string, Wanted> {
    map["name" := WantString(analyst.name), "description" := WantString(analyst.description),
        "status" := WantString(Some(StatusName(status)))]
  }

  /** The conditional puts of the document patch. */
  method DocumentPatch(analyst: Analyst, status: UserStatus, snap: Option<Doc>) returns (patch: map<string, Value>)
    ensures patch == Diff(Wanted(analyst, status), snap)
  {
    patch := map[];
    DiffNone(snap);
    DiffExtend(map[], snap, "name", WantString(analyst.name));
    if analyst.name != GetString(snap, "name") {
      patch := patch["name" := StrValue(analyst.name)];
    }
    ghost var wanted := map["name" := WantString(analyst.name)];
    DiffExtend(wanted, snap, "description", WantString(analyst.description));
    if analyst.description != GetString(snap, "description") {
      patch := patch["description" := StrValue(analyst.description)];
    }
    wanted := wanted["description" := WantString(analyst.description)];
    DiffExtend(wanted, snap, "status", WantString(Some(StatusName(status))));
    if Some(StatusName(status)) != GetString(snap, "status") {
      patch := patch["status" := Str(StatusName(status))];
    }
    assert wanted["status" := WantString(Some(StatusName(status)))] == Wanted(analyst, status);
  }

  /** When `update` gets through: the uid names a record, the analyst has a
      status, the record has a status claim, and a changed e-mail does not
      belong to another user. */
  predicate Updatable(users: map<Uid, UserRecord>, analyst: Analyst) {
    GetUserIn(users, analyst.uid).Ok? && analyst.status.Some?
    && var rec := users[analyst.uid.value];
    "status" in rec.claims
    && !(analyst.email != rec.email && EmailTaken(users, analyst.email, analyst.uid))
  }

  /** `update(analyst)`: the identity record with the status claim, then the
      document patch if it is not empty; returns its argument. Nothing is
      written when it fails. */
  method Update(store: Backend, analyst: Analyst) returns (r: Result<Analyst>)
    modifies store
    ensures r.Ok? <==> Updatable(old(store.users), analyst)
    ensures r.Ok? ==> r.value == analyst
    ensures r.Err? ==> store.users == old(store.users) && store.docs == old(store.docs)
    ensures r.Ok? ==>
              var uid := analyst.uid.value;
              var patch := Diff(Wanted(analyst, analyst.status.value), old(store.Snapshot(Analysts, uid)));
              var rec := old(store.users)[uid];
              store.users == old(store.users)[uid := UpdatedRecord(rec, analyst).(claims := rec.claims["status" := StatusName(analyst.status.value)])]
              && store.docs == old(store.docs).With(Analysts, UpdateIn(old(store.Coll(Analysts)), uid, patch))
              && IdentityThenPatch(old(store.calls), store.calls, uid, Analysts, patch)
    ensures store.blobs == old(store.blobs)
  {
    var rec :- store.GetUser(analyst.uid);
    var uid := analyst.uid.value;
    if analyst.status.None? {
      return Err(NullPointer);
    }
    var status := analyst.status.value;
    var patch := DocumentPatch(analyst, status, store.Snapshot(Analysts, uid));
    var current :- ClaimString(rec.claims, "status");
    var claims := rec.claims["status" := StatusName(status)];
    var req := IdentityRequest(uid, rec, analyst, claims);
    var updated := store.UpdateUser(req);
    if updated.Fail? {
      return Err(updated.error);
    }
    if patch != map[] {
      store.UpdateDocument(Analysts, uid, patch);
    } else {
      UpdateInEmpty(store.Coll(Analysts), uid);
    }
    r := Ok(analyst);
  }

  /** Writing back an analyst just read changes no document field, and the
      identity request sets no e-mail, so it cannot fail on a conflict. */
  lemma {:induction false} FoundWritesBackUnchanged(users: map<Uid, UserRecord>, coll: map<Uid, Doc>, uid: Uid)
    requires Find(users, coll, Some(uid)).Ok?
    ensures var x := Find(users, coll, Some(uid)).value;
            Diff(Wanted(x, x.status.value), SnapshotOf(coll, uid)) == map[]
            && x.email == users[uid].email
  {
    var x := Find(users, coll, Some(uid)).value;
    DiffEmptyIff(Wanted(x, x.status.value), SnapshotOf(coll, uid));
  }

  // ---------------------------------------------------------------------
  // delete

  /** `delete(uid)`: the identity record, then the document; a missing
      record throws before the document is touched. */
  method Delete(store: Backend, uid: Uid) returns (r: Outcome)
    modifies store
    ensures r.Pass? <==> uid in old(store.users)
    ensures store.users == old(store.users) - {uid}
    ensures r.Pass? ==> store.docs == old(store.docs).With(Analysts, old(store.Coll(Analysts)) - {uid})
    ensures r.Fail? ==> store.docs == old(store.docs)
    ensures store.blobs == old(store.blobs)
  {
    r := store.DeleteUser(uid);
    if r.Fail? {
      return;
    }
    store.DeleteDocument(Analysts, uid);
  }
}
