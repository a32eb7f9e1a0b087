/** controller/EmployeeController.java: a service manages its own employees.
    Every endpoint is behind the SERVICE/ACTIVE gate, so the caller's token
    is an argument here. Findings F1 (the inverted delete test) and F8 (the
    department of an update is not checked) are modelled as written and
    corrected. */
module EmployeeController {
  import opened Common
  import opened Firebase
  import opened Entities
  import Authorization
  import E = EmployeeRepository
  import ES = EmployeeService

  /** The body of a POST: `CreateEmployeeRequestDto`. */
  datatype NewEmployee = NewEmployee(firstName: Option<string>, lastName: Option<string>, phoneNumber: Option<string>,
                                     email: Option<string>, password: Option<string>, departmentUid: Option<Uid>)

  /** The body of a PATCH: `UpdateEmployeeRequestDto`; a null property
      leaves the employee's own. */
  datatype EmployeeChanges = EmployeeChanges(firstName: Option<string>, lastName: Option<string>, phoneNumber: Option<string>,
                                             email: Option<string>, password: Option<string>, departmentUid: Option<Uid>)

  /** `modelMapper.map(requestDto, Employee.class)`: the six properties of
      the body, everything else null. */
  function EmployeeOf(dto: NewEmployee): (x: Employee)
    ensures x.serviceUid.None? && x.uid.None? && x.status.None? && x.role.None?
    ensures x.departmentUid == dto.departmentUid && x.email == dto.email && x.phoneNumber == dto.phoneNumber
  {
    Employee(None, dto.email, dto.password, None, dto.phoneNumber, None, None, None,
             dto.firstName, dto.lastName, None, dto.departmentUid)
  }

  /** `modelMapper.map(requestDto, employee)` with the "is not null"
      condition, read as copying each property onto the one of the same
      name: the body's non-null properties overwrite, nothing else changes;
      in particular the uid, the status and the service stay. */
  function ApplyChanges(dto: EmployeeChanges, employee: Employee): (x: Employee)
    ensures x.uid == employee.uid && x.status == employee.status && x.role == employee.role
    ensures x.serviceUid == employee.serviceUid && x.photo == employee.photo && x.creationDate == employee.creationDate
    ensures x.departmentUid == (if dto.departmentUid.Some? then dto.departmentUid else employee.departmentUid)
    ensures x.firstName == (if dto.firstName.Some? then dto.firstName else employee.firstName)
    ensures x.lastName == (if dto.lastName.Some? then dto.lastName else employee.lastName)
    ensures x.email == (if dto.email.Some? then dto.email else employee.email)
    ensures x.phoneNumber == (if dto.phoneNumber.Some? then dto.phoneNumber else employee.phoneNumber)
    ensures x.password == (if dto.password.Some? then dto.password else employee.password)
  {
    employee.(firstName := Pick(dto.firstName, employee.firstName), lastName := Pick(dto.lastName, employee.lastName),
              phoneNumber := Pick(dto.phoneNumber, employee.phoneNumber), email := Pick(dto.email, employee.email),
              password := Pick(dto.password, employee.password), departmentUid := Pick(dto.departmentUid, employee.departmentUid))
  }

  /** The same call read with ModelMapper's default (standard) token
      matching instead: a destination property is filled from any source
      property holding all of its name's tokens, and the destination `uid`
      has the single token "uid", which `departmentUid` holds. So a
      non-null department in the body overwrites the uid as well. */
  function ApplyChangesByTokens(dto: EmployeeChanges, employee: Employee): (x: Employee)
    ensures x.uid == (if dto.departmentUid.Some? then dto.departmentUid else employee.uid)
    ensures x.(uid := employee.uid) == ApplyChanges(dto, employee)
  {
    ApplyChanges(dto, employee).(uid := Pick(dto.departmentUid, employee.uid))
  }

  /** `getEmployee(uid)`, and the first half of `updateEmployee`: the
      employee is returned only to the service it belongs to. An employee
      without a service throws. */
  function GetEmployee(users: map<Uid, UserRecord>, coll: map<Uid, Doc>, token: FirebaseToken, uid: Uid): (r: Result<Employee>)
    ensures r.Ok? <==> ES.IsEmployeeInService(users, coll, uid, token.uid) == Ok(true)
    ensures r.Ok? ==> r == ES.GetEmployee(users, coll, uid) && r.value.serviceUid == Some(token.uid)
    ensures ES.IsEmployeeInService(users, coll, uid, token.uid) == Ok(false) ==> r == Err(Authorization.UNAUTHORIZED)
    ensures ES.IsEmployeeInService(users, coll, uid, token.uid).Err? ==> r == Err(ES.IsEmployeeInService(users, coll, uid, token.uid).error)
  {
    var employee :- ES.GetEmployee(users, coll, uid);
    var same :- JavaEquals(employee.serviceUid, Some(token.uid));
    if same then Ok(employee) else Err(Authorization.UNAUTHORIZED)
  }

  /** `createEmployee(requestDto)`: whatever the body, the employee is
      created for the caller's service. */
  method CreateEmployee(store: Backend, token: FirebaseToken, dto: NewEmployee, now: Timestamp) returns (r: Outcome, ghost uid: Uid)
    modifies store
    ensures var check := old(ES.DepartmentCheck(store.Coll(Departments), token.uid, dto.departmentUid));
            (check.Fail? ==> r == check && store.users == old(store.users) && store.docs == old(store.docs))
            && (r.Pass? ==> check.Pass? && uid !in old(store.users) && uid in store.users
                            && "serviceUid" in store.users[uid].claims && store.users[uid].claims["serviceUid"] == token.uid
                            && uid in store.Coll(Employees) && "serviceUid" in store.Coll(Employees)[uid]
                            && store.Coll(Employees)[uid]["serviceUid"] == Str(token.uid))
    ensures store.blobs == old(store.blobs)
  {
    r, uid := ES.CreateEmployee(store, token.uid, EmployeeOf(dto), now);
  }

  /** `updateEmployee(uid, requestDto)` as written (finding F8), with the
      body mapped by property name (`ApplyChanges`): the caller must own the
      employee, but the department the body names is written without asking
      whose it is. */
  method UpdateEmployeeAsWritten(store: Backend, token: FirebaseToken, uid: Uid, dto: EmployeeChanges) returns (r: Result<Employee>)
    modifies store
    ensures var owned := old(GetEmployee(store.users, store.Coll(Employees), token, uid));
            (owned.Err? ==> r == owned && store.users == old(store.users) && store.docs == old(store.docs))
            && (owned.Ok? ==>
                  var x := ApplyChanges(dto, owned.value);
                  (r.Ok? <==> E.Updatable(old(store.users), x))
                  && (r.Ok? ==> r.value == x && ES.WroteBack(old(store.users), old(store.docs), store.users, store.docs, x))
                  && (r.Err? ==> store.users == old(store.users) && store.docs == old(store.docs)))
    ensures store.blobs == old(store.blobs)
  {
    var owned :- GetEmployee(store.users, store.Coll(Employees), token, uid);
    r := ES.UpdateEmployee(store, ApplyChanges(dto, owned));
  }

  /** `updateEmployee(uid, requestDto)` as written, under the token-matching
      reading of the mapper: `update` then looks up the user whose uid is the
      body's department, so a department uid that names no user throws at
      `getUser` and nothing is written, and one that does redirects the
      write to that user. */
  method UpdateEmployeeByTokens(store: Backend, token: FirebaseToken, uid: Uid, dto: EmployeeChanges) returns (r: Result<Employee>)
    modifies store
    ensures var owned := old(GetEmployee(store.users, store.Coll(Employees), token, uid));
            (owned.Err? ==> r == owned && store.users == old(store.users) && store.docs == old(store.docs))
            && (owned.Ok? ==>
                  var x := ApplyChangesByTokens(dto, owned.value);
                  (r.Ok? <==> E.Updatable(old(store.users), x))
                  && (r.Ok? ==> r.value == x && ES.WroteBack(old(store.users), old(store.docs), store.users, store.docs, x))
                  && (r.Err? ==> store.users == old(store.users) && store.docs == old(store.docs)))
    ensures old(GetEmployee(store.users, store.Coll(Employees), token, uid)).Ok?
            && dto.departmentUid.Some? && dto.departmentUid.value !in old(store.users) ==>
              r.Err? && store.users == old(store.users) && store.docs == old(store.docs)
    ensures store.blobs == old(store.blobs)
  {
    var owned :- GetEmployee(store.users, store.Coll(Employees), token, uid);
    r := ES.UpdateEmployee(store, ApplyChangesByTokens(dto, owned));
  }

  /** `updateEmployee(uid, requestDto)` corrected: a department named in the
      body must belong to the caller, as `createEmployee` demands. */
  method UpdateEmployee(store: Backend, token: FirebaseToken, uid: Uid, dto: EmployeeChanges) returns (r: Result<Employee>)
    modifies store
    ensures var owned := old(GetEmployee(store.users, store.Coll(Employees), token, uid));
            var check := old(ES.DepartmentCheck(store.Coll(Departments), token.uid, dto.departmentUid));
            (owned.Err? ==> r == owned)
            && (owned.Ok? && dto.departmentUid.Some? && check.Fail? ==> r == Err(check.error))
            && (r.Err? ==> store.users == old(store.users) && store.docs == old(store.docs))
            && (owned.Ok? && (dto.departmentUid.None? || check.Pass?) ==>
                  var x := ApplyChanges(dto, owned.value);
                  (r.Ok? <==> E.Updatable(old(store.users), x))
                  && (r.Ok? ==> r.value == x && ES.WroteBack(old(store.users), old(store.docs), store.users, store.docs, x)))
    ensures store.blobs == old(store.blobs)
  {
    var owned :- GetEmployee(store.users, store.Coll(Employees), token, uid);
    if dto.departmentUid.Some? {
      var check := ES.DepartmentCheck(store.Coll(Departments), token.uid, dto.departmentUid);
      if check.Fail? {
        return Err(check.error);
      }
    }
    r := ES.UpdateEmployee(store, ApplyChanges(dto, owned));
  }

  /** An update written back reads back as the merge (the password is never
      read back), and leaves the employee in the caller's service and in the
      department the body named (or its own): nothing about that department
      is looked at. Under the as-written endpoint that department
      may belong to any service (F8). */
  lemma {:induction false} UpdateReadsBack(users: map<Uid, UserRecord>, coll: map<Uid, Doc>, token: FirebaseToken, uid: Uid, dto: EmployeeChanges)
    requires GetEmployee(users, coll, token, uid).Ok?
    requires E.Updatable(users, ApplyChanges(dto, GetEmployee(users, coll, token, uid).value))
    ensures var x := ApplyChanges(dto, GetEmployee(users, coll, token, uid).value);
            var users1 := ES.UsersAfterUpdate(users, x);
            var coll1 := ES.DocsAfterUpdate(coll, x);
            ES.IsEmployeeInService(users1, coll1, uid, token.uid) == Ok(true)
            && (x.departmentUid.Some? ==> ES.IsEmployeeInDepartment(users1, coll1, uid, x.departmentUid.value) == Ok(true))
    ensures var x := ApplyChanges(dto, GetEmployee(users, coll, token, uid).value);
            E.Find(ES.UsersAfterUpdate(users, x), ES.DocsAfterUpdate(coll, x), Some(uid)) == Ok(x.(password := None))
  {
    var x := ApplyChanges(dto, GetEmployee(users, coll, token, uid).value);
    var coll1 := ES.DocsAfterUpdate(coll, x);
    UpdatedDocument(users, coll, token, uid, dto);
    assert "role" in users[uid].claims;
    assert ES.UsersAfterUpdate(users, x)[uid].claims["role"] == users[uid].claims["role"];
    StatusRoundTrip(x.status.value);
    assert E.Find(ES.UsersAfterUpdate(users, x), coll1, Some(uid)).Ok?;
  }

  /** The document an update writes back names the caller's service and the
      department of the merge. */
  lemma UpdatedDocument(users: map<Uid, UserRecord>, coll: map<Uid, Doc>, token: FirebaseToken, uid: Uid, dto: EmployeeChanges)
    requires GetEmployee(users, coll, token, uid).Ok?
    requires E.Updatable(users, ApplyChanges(dto, GetEmployee(users, coll, token, uid).value))
    ensures var x := ApplyChanges(dto, GetEmployee(users, coll, token, uid).value);
            var coll1 := ES.DocsAfterUpdate(coll, x);
            uid in coll && uid in coll1
            && GetString(Some(coll1[uid]), "serviceUid") == Some(token.uid)
            && GetString(Some(coll1[uid]), "departmentUid") == x.departmentUid
            && GetString(Some(coll1[uid]), "firstName") == x.firstName
            && GetString(Some(coll1[uid]), "lastName") == x.lastName
  {
    var x := ApplyChanges(dto, GetEmployee(users, coll, token, uid).value);
    assert uid in coll by {
      assert GetString(SnapshotOf(coll, uid), "serviceUid").Some?;
    }
    assert DocsAfterUpdateAt(coll, x, uid);
    PatchedEmployee(coll[uid], x);
  }

  /** The update writes the employee's document under its own uid. */
  predicate DocsAfterUpdateAt(coll: map<Uid, Doc>, x: Employee, uid: Uid)
    requires x.uid.Some?
  {
    uid in coll && x.uid == Some(uid) && ES.DocsAfterUpdate(coll, x)[uid] == Patch(coll[uid], Diff(E.Wanted(x), Some(coll[uid])))
  }

  /** Patching a stored employee document sets the names and department
      and keeps the service. */
  lemma PatchedEmployee(stored: Doc, x: Employee)
    ensures var patched := Some(Patch(stored, Diff(E.Wanted(x), Some(stored))));
            GetString(patched, "serviceUid") == GetString(Some(stored), "serviceUid")
            && GetString(patched, "departmentUid") == x.departmentUid
            && GetString(patched, "firstName") == x.firstName
            && GetString(patched, "lastName") == x.lastName
  {
    var wanted := E.Wanted(x);
    PatchMakesAgree(wanted, stored);
    assert "departmentUid" in wanted && "firstName" in wanted && "lastName" in wanted && "serviceUid" !in wanted;
  }

  /** The test `deleteEmployee` makes as written (finding F1): it refuses
      the caller's own employees and lets every other one through. */
  function DeleteCheckAsWritten(users: map<Uid, UserRecord>, coll: map<Uid, Doc>, token: FirebaseToken, uid: Uid): (r: Outcome)
    ensures var inService := ES.IsEmployeeInService(users, coll, uid, token.uid);
            (inService.Err? ==> r == Fail(inService.error))
            && (inService == Ok(true) ==> r == Fail(Authorization.UNAUTHORIZED))
            && (inService == Ok(false) ==> r == Pass)
  {
    var inService := ES.IsEmployeeInService(users, coll, uid, token.uid);
    if inService.Err? then Fail(inService.error)
    else if inService.value then Fail(Authorization.UNAUTHORIZED)
    else Pass
  }

  /** The test corrected: only the caller's own employees may be deleted. */
  function DeleteCheck(users: map<Uid, UserRecord>, coll: map<Uid, Doc>, token: FirebaseToken, uid: Uid): (r: Outcome)
    ensures r.Pass? <==> GetEmployee(users, coll, token, uid).Ok?
    ensures r.Fail? ==> r.error == GetEmployee(users, coll, token, uid).error
  {
    var owned := GetEmployee(users, coll, token, uid);
    if owned.Ok? then Pass else Fail(owned.error)
  }

  /** F1: wherever the employee can be read with a service, the two tests
      give opposite answers, so as written a service can delete exactly the
      employees of other services. */
  lemma {:induction false} DeleteCheckInverted(users: map<Uid, UserRecord>, coll: map<Uid, Doc>, token: FirebaseToken, uid: Uid)
    requires ES.IsEmployeeInService(users, coll, uid, token.uid).Ok?
    ensures DeleteCheckAsWritten(users, coll, token, uid).Pass? <==> !DeleteCheck(users, coll, token, uid).Pass?
    ensures DeleteCheckAsWritten(users, coll, token, uid).Pass? <==>
              ES.GetEmployee(users, coll, uid).value.serviceUid != Some(token.uid)
  {
    var inService := ES.IsEmployeeInService(users, coll, uid, token.uid);
    assert GetEmployee(users, coll, token, uid).Ok? <==> inService.value;
  }

  /** `deleteEmployee(uid)` as written: the employee is removed when the
      inverted test lets it through. */
  method DeleteEmployeeAsWritten(store: Backend, token: FirebaseToken, uid: Uid) returns (r: Outcome)
    modifies store
    ensures var check := old(DeleteCheckAsWritten(store.users, store.Coll(Employees), token, uid));
            (check.Fail? ==> r == check && store.users == old(store.users) && store.docs == old(store.docs))
            && (check.Pass? ==> r == Pass && store.users == old(store.users) - {uid}
                                && store.docs == old(store.docs).With(Employees, old(store.Coll(Employees)) - {uid}))
    ensures store.blobs == old(store.blobs)
  {
    r := DeleteCheckAsWritten(store.users, store.Coll(Employees), token, uid);
    if r.Fail? {
      return;
    }
    r := ES.DeleteEmployee(store, uid);
  }

  /** `deleteEmployee(uid)` corrected: the caller's own employee is removed,
      any other one is refused and nothing is written. */
  method DeleteEmployee(store: Backend, token: FirebaseToken, uid: Uid) returns (r: Outcome)
    modifies store
    ensures var owned := old(GetEmployee(store.users, store.Coll(Employees), token, uid));
            (owned.Err? ==> r == Fail(owned.error) && store.users == old(store.users) && store.docs == old(store.docs))
            && (owned.Ok? ==> r == Pass && store.users == old(store.users) - {uid}
                              && store.docs == old(store.docs).With(Employees, old(store.Coll(Employees)) - {uid}))
    ensures store.blobs == old(store.blobs)
  {
    r := DeleteCheck(store.users, store.Coll(Employees), token, uid);
    if r.Fail? {
      return;
    }
    r := ES.DeleteEmployee(store, uid);
  }
}
