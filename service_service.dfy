/** service/ServiceService.java: reads, writes and soft-deletes services
    through the service repository. */
module ServiceService {
  import opened Common
  import opened Firebase
  import opened Entities
  import S = ServiceRepository

  const ALREADY_DELETED := Runtime("Service already deleted.")

  /** The identity records `update(x)` leaves behind. */
  function UsersAfterUpdate(users: map<Uid, UserRecord>, x: Service): map<Uid, UserRecord>
    requires x.uid.Some? && x.uid.value in users && x.status.Some?
  {
    var rec := users[x.uid.value];
    users[x.uid.value := S.UpdatedRecord(rec, x).(claims := rec.claims["status" := StatusName(x.status.value)])]
  }

  /** The services collection `update(x)` leaves behind. */
  function DocsAfterUpdate(coll: map<Uid, Doc>, x: Service): map<Uid, Doc>
    requires x.uid.Some? && x.status.Some?
  {
    UpdateIn(coll, x.uid.value, Diff(S.Wanted(x, x.status.value), SnapshotOf(coll, x.uid.value)))
  }

  /** The backends hold what a successful `update(x)` writes. */
  predicate WroteBack(users0: map<Uid, UserRecord>, docs0: Collections,
                      users1: map<Uid, UserRecord>, docs1: Collections, x: Service) {
    x.uid.Some? && x.uid.value in users0 && x.status.Some?
    && users1 == UsersAfterUpdate(users0, x)
    && docs1 == docs0.With(Services, DocsAfterUpdate(docs0.Get(Services), x))
  }

  /** `getService(uid)`: `find` never returns null, so the null check is
      dead and every failure is the one `find` throws. */
  function GetService(users: map<Uid, UserRecord>, coll: map<Uid, Doc>, uid: Uid): (r: Result<Service>)
    ensures r.Ok? ==> uid in users && r.value.uid == Some(uid) && r.value.role == Some(SERVICE) && r.value.status.Some?
                      && S.ReadFrom(r.value, uid, users[uid], SnapshotOf(coll, uid))
    ensures r.Err? ==> r.error != NotFound("User not found.")
  {
    S.Find(users, coll, Some(uid))
  }

  /** `createService(service)`: one `persist`. */
  method CreateService(store: Backend, service: Service, now: Timestamp) returns (r: Outcome, ghost uid: Uid)
    modifies store
    ensures r.Fail? <==> EmailTaken(old(store.users), service.email, None)
    ensures r.Fail? ==> store.users == old(store.users) && store.docs == old(store.docs)
    ensures r.Pass? ==> uid !in old(store.users)
                        && store.users == old(store.users)[uid := S.NewRecordOf(service, now)]
                        && store.docs == old(store.docs).With(Services, old(store.Coll(Services))[uid := S.NewDocOf(service, now)])
    ensures store.blobs == old(store.blobs)
  {
    r, uid := S.Persist(store, service, now);
  }

  /** `updateService(service)`: only an existing service is written, and
      it is written as given: no merge with the stored one. */
  method UpdateService(store: Backend, service: Service) returns (r: Result<Service>)
    modifies store
    ensures var found := old(S.Find(store.users, store.Coll(Services), service.uid));
            (found.Err? ==> r == Err(found.error))
            && (found.Ok? ==> (r.Ok? <==> S.Updatable(old(store.users), service)))
            && (r.Ok? ==> r.value == service && WroteBack(old(store.users), old(store.docs), store.users, store.docs, service))
            && (r.Err? ==> store.users == old(store.users) && store.docs == old(store.docs))
    ensures store.blobs == old(store.blobs)
  {
    var found :- S.Find(store.users, store.Coll(Services), service.uid);
    r := S.Update(store, service);
  }

  /** `deleteService(uid)`: a soft delete. An already deleted service throws
      and nothing is written; any other is written back as DELETED. */
  method DeleteService(store: Backend, uid: Uid) returns (r: Outcome)
    modifies store
    ensures var found := old(S.Find(store.users, store.Coll(Services), Some(uid)));
            (found.Err? ==> r == Fail(found.error))
            && (found.Ok? && found.value.status == Some(DELETED) ==> r == Fail(ALREADY_DELETED))
            && (r.Fail? ==> store.users == old(store.users) && store.docs == old(store.docs))
            && (found.Ok? && found.value.status != Some(DELETED) ==>
                  var x := found.value.(status := Some(DELETED));
                  (r.Pass? <==> S.Updatable(old(store.users), x))
                  && (r.Pass? ==> WroteBack(old(store.users), old(store.docs), store.users, store.docs, x)))
    ensures store.blobs == old(store.blobs)
  {
    var found := S.Find(store.users, store.Coll(Services), Some(uid));
    if found.Err? {
      return Fail(found.error);
    }
    if found.value.status == Some(DELETED) {
      return Fail(ALREADY_DELETED);
    }
    var updated := S.Update(store, found.value.(status := Some(DELETED)));
    r := if updated.Ok? then Pass else Fail(updated.error);
  }

  /** A service read and written back with a new status is updatable
      exactly when its record carries a status claim, and is then read back
      with that status and otherwise unchanged: after a soft delete the
      service reads as DELETED, so a second delete throws. */
  lemma {:induction false} StatusChangeReadsBack(users: map<Uid, UserRecord>, coll: map<Uid, Doc>, uid: Uid, s: UserStatus)
    requires S.Find(users, coll, Some(uid)).Ok?
    ensures var x := S.Find(users, coll, Some(uid)).value.(status := Some(s));
            (S.Updatable(users, x) <==> "status" in users[uid].claims)
            && ("status" in users[uid].claims ==>
                  S.Find(UsersAfterUpdate(users, x), DocsAfterUpdate(coll, x), Some(uid)) == Ok(x))
  {
    var x := S.Find(users, coll, Some(uid)).value.(status := Some(s));
    var rec := users[uid];
    assert uid in coll by {
      assert StatusValueOf(GetString(SnapshotOf(coll, uid), "status")).Ok?;
    }
    if "status" in rec.claims {
      var users1 := UsersAfterUpdate(users, x);
      var coll1 := DocsAfterUpdate(coll, x);
      var wanted := S.Wanted(x, s);
      PatchMakesAgree(wanted, coll[uid]);
      assert "status" in wanted && "name" in wanted && "description" in wanted && "address" in wanted;
      assert coll1[uid] == Patch(coll[uid], Diff(wanted, Some(coll[uid])));
      assert GetString(Some(coll1[uid]), "status") == Some(StatusName(s));
      StatusRoundTrip(s);
      assert users1[uid].claims["role"] == rec.claims["role"];
    }
  }
}
