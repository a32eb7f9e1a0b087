/** service/AnalystService.java: analysts are merged on update and, unlike
    residents and services, deleted outright. */
module AnalystService {
  import opened Common
  import opened Firebase
  import opened Entities
  import A = AnalystRepository

  /** The identity records `update(x)` leaves behind. */
  function UsersAfterUpdate(users: map<Uid, UserRecord>, x: Analyst): map<Uid, UserRecord>
    requires x.uid.Some? && x.uid.value in users && x.status.Some?
  {
    var rec := users[x.uid.value];
    users[x.uid.value := A.UpdatedRecord(rec, x).(claims := rec.claims["status" := StatusName(x.status.value)])]
  }

  /** The analysts collection `update(x)` leaves behind. */
  function DocsAfterUpdate(coll: map<Uid, Doc>, x: Analyst): map<Uid, Doc>
    requires x.uid.Some? && x.status.Some?
  {
    UpdateIn(coll, x.uid.value, Diff(A.Wanted(x, x.status.value), SnapshotOf(coll, x.uid.value)))
  }

  /** The backends hold what a successful `update(x)` writes. */
  predicate WroteBack(users0: map<Uid, UserRecord>, docs0: Collections,
                      users1: map<Uid, UserRecord>, docs1: Collections, x: Analyst) {
    x.uid.Some? && x.uid.value in users0 && x.status.Some?
    && users1 == UsersAfterUpdate(users0, x)
    && docs1 == docs0.With(Analysts, DocsAfterUpdate(docs0.Get(Analysts), x))
  }

  /** `getAnalyst(uid)`. */
  function GetAnalyst(users: map<Uid, UserRecord>, coll: map<Uid, Doc>, uid: Uid): (r: Result<Analyst>)
    ensures r.Ok? ==> uid in users && r.value.uid == Some(uid) && r.value.role == Some(ANALYST)
                      && A.ReadFrom(r.value, uid, users[uid], SnapshotOf(coll, uid))
  {
    A.Find(users, coll, Some(uid))
  }

  /** `createAnalyst(analyst)`: one `persist`. */
  method CreateAnalyst(store: Backend, analyst: Analyst, now: Timestamp) returns (r: Outcome, ghost uid: Uid)
    modifies store
    ensures r.Fail? <==> EmailTaken(old(store.users), analyst.email, None)
    ensures r.Fail? ==> store.users == old(store.users) && store.docs == old(store.docs)
    ensures r.Pass? ==> uid !in old(store.users)
                        && store.users == old(store.users)[uid := A.NewRecordOf(analyst, now)]
                        && store.docs == old(store.docs).With(Analysts, old(store.Coll(Analysts))[uid := A.NewDocOf(analyst, now)])
    ensures store.blobs == old(store.blobs)
  {
    r, uid := A.Persist(store, analyst, now);
  }

  /** `updateAnalyst(analyst)`: the stored analyst with every non-null
      property of the input copied over is written back. */
  method UpdateAnalyst(store: Backend, analyst: Analyst) returns (r: Result<Analyst>)
    modifies store
    ensures var found := old(A.Find(store.users, store.Coll(Analysts), analyst.uid));
            (found.Err? ==> r == Err(found.error))
            && (found.Ok? ==>
                  var merged := MergeAnalyst(analyst, found.value);
                  (r.Ok? <==> A.Updatable(old(store.users), merged))
                  && (r.Ok? ==> r.value == merged && WroteBack(old(store.users), old(store.docs), store.users, store.docs, merged)))
            && (r.Err? ==> store.users == old(store.users) && store.docs == old(store.docs))
    ensures store.blobs == old(store.blobs)
  {
    var found :- A.Find(store.users, store.Coll(Analysts), analyst.uid);
    r := A.Update(store, MergeAnalyst(analyst, found));
  }

  /** `updateAnalystStatus(uid, status)`: the stored analyst with exactly
      the given status is written back. */
  method UpdateAnalystStatus(store: Backend, uid: Uid, status: UserStatus) returns (r: Outcome)
    modifies store
    ensures var found := old(A.Find(store.users, store.Coll(Analysts), Some(uid)));
            (found.Err? ==> r == Fail(found.error))
            && (found.Ok? ==>
                  var x := found.value.(status := Some(status));
                  (r.Pass? <==> A.Updatable(old(store.users), x))
                  && (r.Pass? ==> WroteBack(old(store.users), old(store.docs), store.users, store.docs, x)))
            && (r.Fail? ==> store.users == old(store.users) && store.docs == old(store.docs))
    ensures store.blobs == old(store.blobs)
  {
    var found := A.Find(store.users, store.Coll(Analysts), Some(uid));
    if found.Err? {
      return Fail(found.error);
    }
    var updated := A.Update(store, found.value.(status := Some(status)));
    r := if updated.Ok? then Pass else Fail(updated.error);
  }

  /** `deleteAnalyst(uid)`: a hard delete of the record and the document,
      whatever the analyst's status; no lookup comes first. */
  method DeleteAnalyst(store: Backend, uid: Uid) returns (r: Outcome)
    modifies store
    ensures r.Pass? <==> uid in old(store.users)
    ensures store.users == old(store.users) - {uid}
    ensures r.Pass? ==> store.docs == old(store.docs).With(Analysts, old(store.Coll(Analysts)) - {uid})
    ensures r.Fail? ==> store.docs == old(store.docs)
    ensures store.blobs == old(store.blobs)
  {
    r := A.Delete(store, uid);
  }

  /** An analyst written back with a new status reads back with exactly
      that status, the rest unchanged. */
  lemma {:induction false} StatusChangeReadsBack(users: map<Uid, UserRecord>, coll: map<Uid, Doc>, uid: Uid, s: UserStatus)
    requires A.Find(users, coll, Some(uid)).Ok?
    ensures var x := A.Find(users, coll, Some(uid)).value.(status := Some(s));
            (A.Updatable(users, x) <==> "status" in users[uid].claims)
            && ("status" in users[uid].claims ==>
                  A.Find(UsersAfterUpdate(users, x), DocsAfterUpdate(coll, x), Some(uid)) == Ok(x))
  {
    var x := A.Find(users, coll, Some(uid)).value.(status := Some(s));
    var rec := users[uid];
    assert uid in coll by {
      assert StatusValueOf(GetString(SnapshotOf(coll, uid), "status")).Ok?;
    }
    if "status" in rec.claims {
      var users1 := UsersAfterUpdate(users, x);
      var coll1 := DocsAfterUpdate(coll, x);
      var wanted := A.Wanted(x, s);
      PatchMakesAgree(wanted, coll[uid]);
      assert "status" in wanted && "name" in wanted && "description" in wanted;
      assert coll1[uid] == Patch(coll[uid], Diff(wanted, Some(coll[uid])));
      assert GetString(Some(coll1[uid]), "status") == Some(StatusName(s));
      StatusRoundTrip(s);
      assert users1[uid].claims["role"] == rec.claims["role"];
    }
  }

  /** After a hard delete the analyst is gone from both stores and can no
      longer be found. */
  lemma DeletedIsGone(users: map<Uid, UserRecord>, coll: map<Uid, Doc>, uid: Uid)
    ensures A.Find(users - {uid}, coll - {uid}, Some(uid)).Err?
  {
  }
}
