/** controller/DepartmentController.java: a service manages its departments,
    and both the service and the department's employees may read one. The
    caller's token, put on the request by the authorization gate, is an
    argument here. Finding F2 (the role switch of `getDepartment` never
    matches) is modelled as written and corrected. */
module DepartmentController {
  import opened Common
  import opened Firebase
  import opened Entities
  import Authorization
  import Paging
  import D = DepartmentRepository
  import E = EmployeeRepository
  import DS = DepartmentService
  import ES = EmployeeService

  /** The gate's role list on `getDepartment` and `getDepartmentEmployees`. */
  const READER_ROLES := ["SERVICE", "EMPLOYEE"]

  /** The body of a POST or a PATCH: `CreateDepartmentRequestDto` and
      `UpdateDepartmentRequestDto` carry the same five properties. */
  datatype DepartmentBody = DepartmentBody(name: Option<string>, description: Option<string>, address: Option<string>,
                                           phoneNumber: Option<string>, categories: Option<seq<int>>)

  /** `modelMapper.map(requestDto, Department.class)`, then `setUid(uid)`:
      the body's properties, no creation date and no service. */
  function DepartmentOf(dto: DepartmentBody, uid: Option<Uid>): (d: Department)
    ensures d.uid == uid && d.creationDate.None? && d.serviceUid.None?
    ensures d.name == dto.name && d.categories == dto.categories
  {
    Department(uid, dto.name, dto.description, dto.address, dto.phoneNumber, None, dto.categories, None)
  }

  /** `getDepartment(uid)` with the `switch` on the caller's role claim
      taking `serviceCase` and `employeeCase` as its two labels: a service
      must own the department, an employee must belong to it, any other role
      reads it unchecked. A missing role claim throws. */
  function SwitchAccess(departments: map<Uid, Doc>, users: map<Uid, UserRecord>, employees: map<Uid, Doc>,
                        token: FirebaseToken, uid: Uid, serviceCase: string, employeeCase: string): (r: Result<Department>)
    requires serviceCase != employeeCase
    ensures DS.GetDepartment(departments, uid).Err? ==> r == DS.GetDepartment(departments, uid)
    ensures r.Ok? ==> r == DS.GetDepartment(departments, uid)
    ensures DS.GetDepartment(departments, uid).Ok? && "role" !in token.claims ==> r == Err(NullPointer)
    ensures DS.GetDepartment(departments, uid).Ok? && "role" in token.claims && token.claims["role"] == serviceCase ==>
              (r.Ok? <==> DS.GetDepartment(departments, uid).value.serviceUid == Some(token.uid))
    ensures DS.GetDepartment(departments, uid).Ok? && "role" in token.claims && token.claims["role"] == employeeCase ==>
              (r.Ok? <==> ES.IsEmployeeInDepartment(users, employees, token.uid, uid) == Ok(true))
    ensures "role" in token.claims && token.claims["role"] != serviceCase && token.claims["role"] != employeeCase ==>
              r == DS.GetDepartment(departments, uid)
  {
    var department :- DS.GetDepartment(departments, uid);
    if "role" !in token.claims then Err(NullPointer)
    else if token.claims["role"] == serviceCase then
      var same := JavaEquals(Some(token.uid), department.serviceUid).value;
      if same then Ok(department) else Err(Authorization.UNAUTHORIZED)
    else if token.claims["role"] == employeeCase then
      var member :- ES.IsEmployeeInDepartment(users, employees, token.uid, uid);
      if member then Ok(department) else Err(Authorization.UNAUTHORIZED)
    else Ok(department)
  }

  /** `getDepartment(uid)` as written (finding F2): the labels are
      "ROLE_SERVICE" and "ROLE_EMPLOYEE". */
  function GetDepartmentAsWritten(departments: map<Uid, Doc>, users: map<Uid, UserRecord>, employees: map<Uid, Doc>,
                                  token: FirebaseToken, uid: Uid): (r: Result<Department>)
    ensures r.Ok? ==> r == DS.GetDepartment(departments, uid)
    ensures "role" in token.claims && token.claims["role"] in READER_ROLES ==> r == DS.GetDepartment(departments, uid)
  {
    SwitchAccess(departments, users, employees, token, uid, "ROLE_SERVICE", "ROLE_EMPLOYEE")
  }

  /** `getDepartment(uid)` corrected: the labels are the role names the
      gate admits. */
  function GetDepartment(departments: map<Uid, Doc>, users: map<Uid, UserRecord>, employees: map<Uid, Doc>,
                         token: FirebaseToken, uid: Uid): (r: Result<Department>)
    ensures r.Ok? ==> r == DS.GetDepartment(departments, uid)
  {
    SwitchAccess(departments, users, employees, token, uid, RoleName(SERVICE), RoleName(EMPLOYEE))
  }

  /** F2: every caller the gate lets through reads every department as
      written, whoever owns it. */
  lemma AsWrittenSkipsChecks(departments: map<Uid, Doc>, users: map<Uid, UserRecord>, employees: map<Uid, Doc>,
                             token: FirebaseToken, uid: Uid)
    requires Authorization.HasRole(token, READER_ROLES)
    ensures GetDepartmentAsWritten(departments, users, employees, token, uid) == DS.GetDepartment(departments, uid)
  {
  }

  /** F2 corrected: for a caller the gate lets through, a department is
      returned exactly to the service that owns it and to the employees in
      it. */
  lemma {:induction false} CorrectedChecksOwnership(departments: map<Uid, Doc>, users: map<Uid, UserRecord>, employees: map<Uid, Doc>,
                                                    token: FirebaseToken, uid: Uid)
    requires Authorization.HasRole(token, READER_ROLES)
    ensures var found := DS.GetDepartment(departments, uid);
            GetDepartment(departments, users, employees, token, uid).Ok? <==>
              found.Ok?
              && (token.claims["role"] == "SERVICE" ==> found.value.serviceUid == Some(token.uid))
              && (token.claims["role"] == "EMPLOYEE" ==> ES.IsEmployeeInDepartment(users, employees, token.uid, uid) == Ok(true))
  {
    assert RoleName(SERVICE) == "SERVICE" && RoleName(EMPLOYEE) == "EMPLOYEE";
    assert token.claims["role"] == "SERVICE" || token.claims["role"] == "EMPLOYEE";
  }

  /** F2 on one input: a department of service "s1" asked for by service
      "s2" is handed out as written and refused once corrected. */
  lemma ForeignServiceExample()
    ensures var departments := map["d" := map["creationDate" := Date(0), "serviceUid" := Str("s1")]];
            var token := FirebaseToken("s2", map["role" := "SERVICE", "status" := "ACTIVE"]);
            Authorization.HasRole(token, READER_ROLES)
            && GetDepartmentAsWritten(departments, map[], map[], token, "d").Ok?
            && GetDepartment(departments, map[], map[], token, "d") == Err(Authorization.UNAUTHORIZED)
  {
    var departments := map["d" := map["creationDate" := Date(0), "serviceUid" := Str("s1")]];
    assert D.Categories(departments["d"]) == Ok(None);
    assert RoleName(SERVICE) == "SERVICE";
  }

  /** `createDepartment(requestDto)`: the department is created for the
      caller's service and is then owned by it. */
  method CreateDepartment(store: Backend, token: FirebaseToken, dto: DepartmentBody, now: Timestamp) returns (r: Outcome, ghost id: Uid)
    modifies store
    ensures r.Pass? && id !in old(store.Coll(Departments))
    ensures store.docs == old(store.docs).With(Departments, old(store.Coll(Departments))[id := D.EntityToMap(DS.Stamped(token.uid, DepartmentOf(dto, None), now)).value])
    ensures DS.IsServiceOwnerOfDepartment(store.Coll(Departments), token.uid, id) == Ok(true)
    ensures store.users == old(store.users) && store.blobs == old(store.blobs)
  {
    r, id := DS.CreateDepartment(store, token.uid, DepartmentOf(dto, None), now);
    DS.CreatedIsOwned(old(store.Coll(Departments)), id, token.uid, DepartmentOf(dto, None), now);
  }

  /** `updateDepartment(uid, requestDto)`: only the owner may update, and
      nothing is written otherwise; a department without a service throws. */
  method UpdateDepartment(store: Backend, token: FirebaseToken, uid: Uid, dto: DepartmentBody) returns (r: Result<Department>)
    modifies store
    ensures var owner := old(DS.IsServiceOwnerOfDepartment(store.Coll(Departments), token.uid, uid));
            (owner.Err? ==> r == Err(owner.error))
            && (owner == Ok(false) ==> r == Err(Authorization.UNAUTHORIZED))
            && (owner != Ok(true) ==> store.docs == old(store.docs))
            && (owner == Ok(true) ==>
                  var merged := MergeDepartment(DepartmentOf(dto, Some(uid)), old(DS.GetDepartment(store.Coll(Departments), uid)).value);
                  r == Ok(merged)
                  && store.docs == old(store.docs).With(Departments, UpdateIn(old(store.Coll(Departments)), uid,
                                                                             Diff(D.Wanted(merged), old(store.Snapshot(Departments, uid))))))
    ensures store.users == old(store.users) && store.blobs == old(store.blobs)
  {
    var owner := DS.IsServiceOwnerOfDepartment(store.Coll(Departments), token.uid, uid);
    if owner.Err? {
      return Err(owner.error);
    }
    if !owner.value {
      return Err(Authorization.UNAUTHORIZED);
    }
    r := DS.UpdateDepartment(store, DepartmentOf(dto, Some(uid)));
  }

  /** An update by the owner is read back as the merge and the department
      stays the caller's: the body cannot hand it to another service. */
  lemma UpdateKeepsOwner(coll: map<Uid, Doc>, token: FirebaseToken, uid: Uid, dto: DepartmentBody)
    requires DS.IsServiceOwnerOfDepartment(coll, token.uid, uid) == Ok(true)
    ensures var merged := MergeDepartment(DepartmentOf(dto, Some(uid)), DS.GetDepartment(coll, uid).value);
            var coll1 := UpdateIn(coll, uid, Diff(D.Wanted(merged), SnapshotOf(coll, uid)));
            DS.GetDepartment(coll1, uid) == Ok(merged)
            && DS.IsServiceOwnerOfDepartment(coll1, token.uid, uid) == Ok(true)
  {
    DS.UpdateReadsBack(coll, DepartmentOf(dto, Some(uid)));
  }

  /** The test of `deleteDepartment`: the department must exist and its
      service must be the caller. */
  function DeleteCheck(coll: map<Uid, Doc>, token: FirebaseToken, uid: Uid): (r: Outcome)
    ensures r.Pass? <==> DS.GetDepartment(coll, uid).Ok? && DS.GetDepartment(coll, uid).value.serviceUid == Some(token.uid)
    ensures DS.GetDepartment(coll, uid).Err? ==> r == Fail(DS.GetDepartment(coll, uid).error)
    ensures DS.GetDepartment(coll, uid).Ok? && r.Fail? ==> r == Fail(Authorization.UNAUTHORIZED)
  {
    var found := DS.GetDepartment(coll, uid);
    if found.Err? then Fail(found.error)
    else if JavaEquals(Some(token.uid), found.value.serviceUid).value then Pass
    else Fail(Authorization.UNAUTHORIZED)
  }

  /** `deleteDepartment(uid)`: the owner's department is removed, anything
      else is refused with nothing written. */
  method DeleteDepartment(store: Backend, token: FirebaseToken, uid: Uid) returns (r: Outcome)
    modifies store
    ensures r == old(DeleteCheck(store.Coll(Departments), token, uid))
    ensures r.Pass? ==> store.docs == old(store.docs).With(Departments, old(store.Coll(Departments)) - {uid})
    ensures r.Fail? ==> store.docs == old(store.docs)
    ensures store.users == old(store.users) && store.blobs == old(store.blobs)
  {
    r := DeleteCheck(store.Coll(Departments), token, uid);
    if r.Fail? {
      return;
    }
    DS.DeleteDepartment(store, uid);
  }

  /** The test of `getDepartmentEmployees`: the owner, or else an employee of
      the department. For any other caller the membership lookup runs, and
      its errors (a caller that is no employee at all) propagate. */
  function ListCheck(departments: map<Uid, Doc>, users: map<Uid, UserRecord>, employees: map<Uid, Doc>,
                     token: FirebaseToken, uid: Uid): (r: Outcome)
    ensures r.Pass? <==> DS.GetDepartment(departments, uid).Ok?
                         && (DS.GetDepartment(departments, uid).value.serviceUid == Some(token.uid)
                             || ES.IsEmployeeInDepartment(users, employees, token.uid, uid) == Ok(true))
    ensures DS.GetDepartment(departments, uid).Err? ==> r == Fail(DS.GetDepartment(departments, uid).error)
    ensures var found := DS.GetDepartment(departments, uid);
            found.Ok? && found.value.serviceUid != Some(token.uid)
            && ES.IsEmployeeInDepartment(users, employees, token.uid, uid) == Ok(false) ==>
              r == Fail(Authorization.UNAUTHORIZED)
  {
    var found := DS.GetDepartment(departments, uid);
    if found.Err? then Fail(found.error)
    else if JavaEquals(Some(token.uid), found.value.serviceUid).value then Pass
    else
      var member := ES.IsEmployeeInDepartment(users, employees, token.uid, uid);
      if member.Err? then Fail(member.error)
      else if member.value then Pass
      else Fail(Authorization.UNAUTHORIZED)
  }

  /** `getDepartmentEmployees(uid)`: for an allowed caller, the employees of
      the department. */
  method GetDepartmentEmployees(store: Backend, token: FirebaseToken, uid: Uid) returns (r: Result<seq<Employee>>)
    ensures var check := ListCheck(store.Coll(Departments), store.users, store.Coll(Employees), token, uid);
            (check.Fail? ==> r == Err(check.error))
            && (r.Ok? ==> check.Pass? && forall x :: x in r.value ==> x.departmentUid == Some(uid))
    ensures var check := ListCheck(store.Coll(Departments), store.users, store.Coll(Employees), token, uid);
            var c := Paging.Collect(E.MemberSteps(store.users, store.Coll(Employees),
                                                  store.Ordered(Employees, E.DepartmentFilter(Some(uid)), ById)));
            check.Pass? ==> r == if c.error.Some? then Err(c.error.value) else Ok(c.items)
    ensures var sel := Select(store.Coll(Employees), E.DepartmentFilter(Some(uid)));
            r.Ok? ==> |r.value| == |sel.Keys| && forall id :: id in sel ==> exists x :: x in r.value && x.uid == Some(id)
  {
    var check := ListCheck(store.Coll(Departments), store.users, store.Coll(Employees), token, uid);
    if check.Fail? {
      return Err(check.error);
    }
    r := ES.GetEmployeesByDepartmentUid(store, uid);
  }
}
