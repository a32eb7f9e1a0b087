/** service/EmployeeService.java: employees are created only into a
    department of the calling service; membership is tested by comparing
    the uids stored with the employee. */
module EmployeeService {
  import opened Common
  import opened Paging
  import opened Firebase
  import opened Entities
  import opened PagedQueries
  import E = EmployeeRepository
  import D = DepartmentRepository

  const DEPARTMENT_NOT_FOUND := NotFound("Department not found")

  /** The identity records `update(x)` leaves behind. */
  function UsersAfterUpdate(users: map<Uid, UserRecord>, x: Employee): map<Uid, UserRecord>
    requires x.uid.Some? && x.uid.value in users && x.status.Some?
  {
    var rec := users[x.uid.value];
    users[x.uid.value := E.UpdatedRecord(rec, x).(claims := E.UpdatedClaims(rec.claims, x))]
  }

  /** The employees collection `update(x)` leaves behind. */
  function DocsAfterUpdate(coll: map<Uid, Doc>, x: Employee): map<Uid, Doc>
    requires x.uid.Some?
  {
    UpdateIn(coll, x.uid.value, Diff(E.Wanted(x), SnapshotOf(coll, x.uid.value)))
  }

  /** The backends hold what a successful `update(x)` writes. */
  predicate WroteBack(users0: map<Uid, UserRecord>, docs0: Collections,
                      users1: map<Uid, UserRecord>, docs1: Collections, x: Employee) {
    x.uid.Some? && x.uid.value in users0 && x.status.Some?
    && users1 == UsersAfterUpdate(users0, x)
    && docs1 == docs0.With(Employees, DocsAfterUpdate(docs0.Get(Employees), x))
  }

  /** `getEmployee(uid)`. */
  function GetEmployee(users: map<Uid, UserRecord>, coll: map<Uid, Doc>, uid: Uid): (r: Result<Employee>)
    ensures r.Ok? ==> uid in users && E.ReadFrom(r.value, uid, users[uid], SnapshotOf(coll, uid))
    ensures r.Err? ==> r == E.Find(users, coll, Some(uid))
  {
    E.Find(users, coll, Some(uid))
  }

  /** `getEmployeesByServiceUid(serviceUid, pageable)`: the repository's
      page; every employee on it belongs to the service. */
  method GetEmployeesByServiceUid(store: Backend, serviceUid: Uid, p: Pageable) returns (r: PagedResult<Employee>)
    requires Clamped(p)
    ensures var ids := store.RunQuery(Employees, E.PageQuery(Some(serviceUid), p));
            r == Listing(p, Count(store.Coll(Employees), E.ServiceFilter(Some(serviceUid))),
                         if ids.Err? then Err(ids.error) else Ok(E.PageSteps(store.users, store.Coll(Employees), ids.value)))
    ensures r.currentPage == p.page as int && |r.items| <= p.size as int
    ensures forall x :: x in r.items ==> x.role == Some(EMPLOYEE) && x.serviceUid == Some(serviceUid)
  {
    ghost var ids := store.RunQuery(Employees, E.PageQuery(Some(serviceUid), p));
    ghost var total := Count(store.Coll(Employees), E.ServiceFilter(Some(serviceUid)));
    r := E.FindAllByServiceUid(store, Some(serviceUid), p);
    ListingFacts(p, total, if ids.Err? then Err(ids.error) else Ok(E.PageSteps(store.users, store.Coll(Employees), ids.value)));
    if ids.Ok? {
      E.ServicePageItems(store.users, store.Coll(Employees), Some(serviceUid), p, total, ids.value);
    }
  }

  /** `getEmployeesByDepartmentUid(departmentUid)`: every employee document
      of the department, each read as an employee, or the first exception. */
  method GetEmployeesByDepartmentUid(store: Backend, departmentUid: Uid) returns (r: Result<seq<Employee>>)
    ensures var ids := store.Ordered(Employees, E.DepartmentFilter(Some(departmentUid)), ById);
            var c := Collect(E.MemberSteps(store.users, store.Coll(Employees), ids));
            r == if c.error.Some? then Err(c.error.value) else Ok(c.items)
    ensures var sel := Select(store.Coll(Employees), E.DepartmentFilter(Some(departmentUid)));
            r.Ok? ==> |r.value| == |sel.Keys|
                      && (forall id :: id in sel ==> exists x :: x in r.value && x.uid == Some(id))
                      && (forall x :: x in r.value ==> x.departmentUid == Some(departmentUid) && x.uid.Some? && x.uid.value in sel)
  {
    r := E.FindAllByDepartmentUid(store, Some(departmentUid));
  }

  /** The test `createEmployee` makes before writing: the department named
      by the employee is read (its errors propagate) and must belong to the
      calling service; a department of another service is reported as not
      found, and one without a service throws. */
  function DepartmentCheck(departments: map<Uid, Doc>, serviceUid: Uid, departmentUid: Option<Uid>): (r: Outcome)
    ensures r.Pass? <==> D.Find(departments, departmentUid).Ok?
                         && D.Find(departments, departmentUid).value.serviceUid == Some(serviceUid)
    ensures D.Find(departments, departmentUid).Err? ==> r == Fail(D.Find(departments, departmentUid).error)
    ensures D.DocumentRef(departmentUid).Ok? && departmentUid.value !in departments ==> r == Fail(DEPARTMENT_NOT_FOUND)
    ensures var found := D.Find(departments, departmentUid);
            found.Ok? && found.value.serviceUid.Some? && found.value.serviceUid != Some(serviceUid) ==>
              r == Fail(DEPARTMENT_NOT_FOUND)
    ensures D.Find(departments, departmentUid).Ok? && D.Find(departments, departmentUid).value.serviceUid.None? ==>
              r == Fail(NullPointer)
  {
    var found := D.Find(departments, departmentUid);
    if found.Err? then Fail(found.error)
    else
      var same := JavaEquals(found.value.serviceUid, Some(serviceUid));
      if same.Err? then Fail(same.error)
      else if same.value then Pass
      else Fail(DEPARTMENT_NOT_FOUND)
  }

  /** `createEmployee(serviceUid, employee)`: the employee is bound to the
      calling service, and persisted only when its department belongs to
      that service. */
  method CreateEmployee(store: Backend, serviceUid: Uid, employee: Employee, now: Timestamp) returns (r: Outcome, ghost uid: Uid)
    modifies store
    ensures var check := old(DepartmentCheck(store.Coll(Departments), serviceUid, employee.departmentUid));
            var x := employee.(serviceUid := Some(serviceUid));
            (check.Fail? ==> r == check && store.users == old(store.users) && store.docs == old(store.docs))
            && (check.Pass? ==>
                  (r.Fail? <==> EmailTaken(old(store.users), x.email, None) || PhoneTaken(old(store.users), x.phoneNumber, None))
                  && (r.Fail? ==> store.users == old(store.users) && store.docs == old(store.docs))
                  && (r.Pass? ==> uid !in old(store.users) && uid != ""
                                  && store.users == old(store.users)[uid := E.NewRecordOf(x, now)]
                                  && store.docs == old(store.docs).With(Employees, old(store.Coll(Employees))[uid := E.NewDocOf(x, now)])))
    ensures store.blobs == old(store.blobs)
  {
    var x := employee.(serviceUid := Some(serviceUid));
    var check := DepartmentCheck(store.Coll(Departments), serviceUid, x.departmentUid);
    if check.Fail? {
      return check, "";
    }
    r, uid := E.Persist(store, x, now);
  }

  /** `updateEmployee(employee)`: straight to the repository; the department
      it names is not checked here. */
  method UpdateEmployee(store: Backend, employee: Employee) returns (r: Result<Employee>)
    modifies store
    ensures r.Ok? <==> E.Updatable(old(store.users), employee)
    ensures r.Ok? ==> r.value == employee && WroteBack(old(store.users), old(store.docs), store.users, store.docs, employee)
    ensures r.Err? ==> store.users == old(store.users) && store.docs == old(store.docs)
    ensures store.blobs == old(store.blobs)
  {
    r := E.Update(store, employee);
  }

  /** `deleteEmployee(uid)`: only an employee that can be read is deleted;
      the second lookup of the source can never see null, so it adds
      nothing. */
  method DeleteEmployee(store: Backend, uid: Uid) returns (r: Outcome)
    modifies store
    ensures var found := old(E.Find(store.users, store.Coll(Employees), Some(uid)));
            (found.Err? ==> r == Fail(found.error) && store.users == old(store.users) && store.docs == old(store.docs))
            && (found.Ok? ==> r == Pass && store.users == old(store.users) - {uid}
                              && store.docs == old(store.docs).With(Employees, old(store.Coll(Employees)) - {uid}))
    ensures store.blobs == old(store.blobs)
  {
    var found := E.Find(store.users, store.Coll(Employees), Some(uid));
    if found.Err? {
      return Fail(found.error);
    }
    r := E.Delete(store, uid);
  }

  /** `isEmployeeInDepartment(employeeUid, departmentUid)`: the department
      uid stored in the employee's document; an employee without one
      throws. */
  function IsEmployeeInDepartment(users: map<Uid, UserRecord>, coll: map<Uid, Doc>, employeeUid: Uid, departmentUid: Uid): (r: Result<bool>)
    ensures E.Find(users, coll, Some(employeeUid)).Err? ==> r == Err(E.Find(users, coll, Some(employeeUid)).error)
    ensures E.Find(users, coll, Some(employeeUid)).Ok? ==>
              (r.Err? <==> GetString(SnapshotOf(coll, employeeUid), "departmentUid").None?)
    ensures r == Ok(true) <==> E.Find(users, coll, Some(employeeUid)).Ok?
                               && GetString(SnapshotOf(coll, employeeUid), "departmentUid") == Some(departmentUid)
    ensures r.Err? ==> r.error == NullPointer || E.Find(users, coll, Some(employeeUid)).Err?
  {
    var employee :- E.Find(users, coll, Some(employeeUid));
    JavaEquals(employee.departmentUid, Some(departmentUid))
  }

  /** `isEmployeeInService(employeeUid, serviceUid)`: the same test on the
      service uid. */
  function IsEmployeeInService(users: map<Uid, UserRecord>, coll: map<Uid, Doc>, employeeUid: Uid, serviceUid: Uid): (r: Result<bool>)
    ensures E.Find(users, coll, Some(employeeUid)).Err? ==> r == Err(E.Find(users, coll, Some(employeeUid)).error)
    ensures E.Find(users, coll, Some(employeeUid)).Ok? ==>
              (r.Err? <==> GetString(SnapshotOf(coll, employeeUid), "serviceUid").None?)
    ensures r == Ok(true) <==> E.Find(users, coll, Some(employeeUid)).Ok?
                               && GetString(SnapshotOf(coll, employeeUid), "serviceUid") == Some(serviceUid)
    ensures r.Err? ==> r.error == NullPointer || E.Find(users, coll, Some(employeeUid)).Err?
  {
    var employee :- E.Find(users, coll, Some(employeeUid));
    JavaEquals(employee.serviceUid, Some(serviceUid))
  }

  /** An employee created by a service is, once stored, an ACTIVE member of
      that service and of the department named at creation, and that
      department belongs to the service. */
  lemma {:induction false} CreatedBelongs(users: map<Uid, UserRecord>, coll: map<Uid, Doc>, departments: map<Uid, Doc>,
                                          serviceUid: Uid, employee: Employee, now: Timestamp, uid: Uid)
    requires uid != "" && DepartmentCheck(departments, serviceUid, employee.departmentUid).Pass?
    ensures employee.departmentUid.Some?
            && D.Find(departments, employee.departmentUid).value.serviceUid == Some(serviceUid)
    ensures var x := employee.(serviceUid := Some(serviceUid));
            var users1 := users[uid := E.NewRecordOf(x, now)];
            var coll1 := coll[uid := E.NewDocOf(x, now)];
            IsEmployeeInService(users1, coll1, uid, serviceUid) == Ok(true)
            && IsEmployeeInDepartment(users1, coll1, uid, employee.departmentUid.value) == Ok(true)
            && GetEmployee(users1, coll1, uid).value.status == Some(ACTIVE)
  {
    var x := employee.(serviceUid := Some(serviceUid));
    E.PersistThenFind(users, coll, uid, x, now);
  }
}
