/** service/DepartmentService.java: departments are created for the calling
    service, merged on update and deleted without checks; ownership is the
    service uid stored in the department's document. */
module DepartmentService {
  import opened Common
  import opened Paging
  import opened Firebase
  import opened Entities
  import D = DepartmentRepository

  /** `getDepartment(uid)`: a missing department is NotFound. */
  function GetDepartment(coll: map<Uid, Doc>, uid: Uid): (r: Result<Department>)
    ensures r.Ok? ==> uid in coll && r.value.uid == Some(uid)
                      && r.value.serviceUid == GetString(Some(coll[uid]), "serviceUid")
    ensures uid != "" && uid !in coll ==> r == Err(NotFound("Department not found"))
  {
    D.Find(coll, Some(uid))
  }

  /** `getDepartmentsByServiceUid(serviceUid, pageable)`: the repository's
      page or its exception; every department on it belongs to the service
      and is what `find` returns for its id. */
  method GetDepartmentsByServiceUid(store: Backend, serviceUid: Uid, p: Pageable) returns (r: Result<PagedResult<Department>>)
    requires Clamped(p)
    ensures var ids := store.RunQuery(Departments, D.PageQuery(Some(serviceUid), p));
            r == if ids.Err? then Err(ids.error)
                 else D.PageOf(p, Count(store.Coll(Departments), D.ServiceFilter(Some(serviceUid))).value,
                               D.PageSteps(store.Coll(Departments), ids.value))
    ensures r.Ok? ==> r.value.currentPage == p.page as int && |r.value.items| <= p.size as int
    ensures r.Ok? ==> forall d :: d in r.value.items ==>
                        d.serviceUid == Some(serviceUid) && d.uid.Some? && d.uid.value in store.Coll(Departments)
                        && (d.uid.value != "" ==> GetDepartment(store.Coll(Departments), d.uid.value) == Ok(d))
  {
    ghost var ids := store.RunQuery(Departments, D.PageQuery(Some(serviceUid), p));
    r := D.FindByServiceUid(store, Some(serviceUid), p);
    if r.Ok? {
      D.PageItemsBelong(store.Coll(Departments), Some(serviceUid), p,
                        Count(store.Coll(Departments), D.ServiceFilter(Some(serviceUid))).value, ids.value);
    }
  }

  /** The department `createDepartment` persists: bound to the calling
      service and stamped with the current time. */
  function Stamped(serviceUid: Uid, department: Department, now: Timestamp): (x: Department)
    ensures x.serviceUid == Some(serviceUid) && x.creationDate == Some(now)
    ensures x.(serviceUid := department.serviceUid, creationDate := department.creationDate) == department
  {
    department.(serviceUid := Some(serviceUid), creationDate := Some(now))
  }

  /** `createDepartment(serviceUid, department)`: never fails, since the
      creation date it sets is what `persist` needs. */
  method CreateDepartment(store: Backend, serviceUid: Uid, department: Department, now: Timestamp) returns (r: Outcome, ghost id: Uid)
    modifies store
    ensures r.Pass? && id !in old(store.Coll(Departments)) && id != ""
    ensures store.docs == old(store.docs).With(Departments, old(store.Coll(Departments))[id := D.EntityToMap(Stamped(serviceUid, department, now)).value])
    ensures store.users == old(store.users) && store.blobs == old(store.blobs)
  {
    r, id := D.Persist(store, Stamped(serviceUid, department, now));
  }

  /** `updateDepartment(department)`: the stored department with every
      non-null property of the input copied over (lists replaced, not
      merged) is written back. */
  method UpdateDepartment(store: Backend, department: Department) returns (r: Result<Department>)
    modifies store
    ensures var found := old(D.Find(store.Coll(Departments), department.uid));
            (found.Err? ==> r == Err(found.error) && store.docs == old(store.docs))
            && (found.Ok? ==>
                  var merged := MergeDepartment(department, found.value);
                  var id := department.uid.value;
                  r == Ok(merged)
                  && store.docs == old(store.docs).With(Departments, UpdateIn(old(store.Coll(Departments)), id,
                                                                             Diff(D.Wanted(merged), old(store.Snapshot(Departments, id))))))
    ensures store.users == old(store.users) && store.blobs == old(store.blobs)
  {
    var found :- D.Find(store.Coll(Departments), department.uid);
    r := D.Update(store, MergeDepartment(department, found));
  }

  /** `deleteDepartment(uid)`: no lookup and no check. */
  method DeleteDepartment(store: Backend, uid: Uid)
    modifies store
    ensures store.docs == old(store.docs).With(Departments, old(store.Coll(Departments)) - {uid})
    ensures store.users == old(store.users) && store.blobs == old(store.blobs)
  {
    D.Delete(store, uid);
  }

  /** `isServiceOwnerOfDepartment(serviceUid, departmentUid)`: the service
      uid stored in the department; a department without one throws. */
  function IsServiceOwnerOfDepartment(coll: map<Uid, Doc>, serviceUid: Uid, departmentUid: Uid): (r: Result<bool>)
    ensures D.Find(coll, Some(departmentUid)).Err? ==> r == Err(D.Find(coll, Some(departmentUid)).error)
    ensures D.Find(coll, Some(departmentUid)).Ok? ==>
              (r.Err? <==> GetString(Some(coll[departmentUid]), "serviceUid").None?)
    ensures r == Ok(true) <==> D.Find(coll, Some(departmentUid)).Ok?
                               && GetString(Some(coll[departmentUid]), "serviceUid") == Some(serviceUid)
  {
    var department :- D.Find(coll, Some(departmentUid));
    JavaEquals(department.serviceUid, Some(serviceUid))
  }

  /** A department created by a service reads back under its new id as
      given, owned by that service. */
  lemma CreatedIsOwned(coll: map<Uid, Doc>, id: Uid, serviceUid: Uid, department: Department, now: Timestamp)
    requires id != ""
    ensures var x := Stamped(serviceUid, department, now);
            var coll1 := coll[id := D.EntityToMap(x).value];
            GetDepartment(coll1, id) == Ok(x.(uid := Some(id)))
            && IsServiceOwnerOfDepartment(coll1, serviceUid, id) == Ok(true)
  {
    D.PersistThenFind(coll, id, Stamped(serviceUid, department, now));
  }

  /** A department updated with neither a creation date nor a service, as
      the update request leaves them, reads back as the merge: the changed
      properties are stored, and the owner and creation date stay. */
  lemma {:induction false} UpdateReadsBack(coll: map<Uid, Doc>, department: Department)
    requires D.Find(coll, department.uid).Ok?
    requires department.creationDate.None? && department.serviceUid.None?
    ensures var found := D.Find(coll, department.uid).value;
            var merged := MergeDepartment(department, found);
            var id := department.uid.value;
            merged.serviceUid == found.serviceUid && merged.creationDate == found.creationDate
            && D.Find(UpdateIn(coll, id, Diff(D.Wanted(merged), SnapshotOf(coll, id))), department.uid) == Ok(merged)
  {
    var found := D.Find(coll, department.uid).value;
    var merged := MergeDepartment(department, found);
    var id := department.uid.value;
    var stored := coll[id];
    assert UpdateIn(coll, id, Diff(D.Wanted(merged), SnapshotOf(coll, id)))[id] == Patch(stored, Diff(D.Wanted(merged), Some(stored)));
    PatchedReadsBack(id, stored, merged);
  }

  /** A department written over its stored document, keeping that
      document's creation date and service, reads back as written. */
  lemma PatchedReadsBack(id: Uid, stored: Doc, x: Department)
    requires x.uid == Some(id) && x.creationDate.Some?
    requires x.creationDate == GetDate(Some(stored), "creationDate")
    requires x.serviceUid == GetString(Some(stored), "serviceUid")
    ensures D.SnapshotToEntity(id, Patch(stored, Diff(D.Wanted(x), Some(stored)))) == Ok(x)
  {
    var wanted := D.Wanted(x);
    var patched := Patch(stored, Diff(wanted, Some(stored)));
    PatchMakesAgree(wanted, stored);
    assert "name" in wanted && "description" in wanted && "address" in wanted && "phoneNumber" in wanted && "categories" in wanted;
    assert Field(Some(patched), "creationDate") == Field(Some(stored), "creationDate");
    assert Field(Some(patched), "serviceUid") == Field(Some(stored), "serviceUid");
    assert Field(Some(patched), "categories") == LongsValue(x.categories);
    assert D.Categories(patched) == Ok(x.categories);
  }
}
