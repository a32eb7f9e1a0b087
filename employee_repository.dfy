/** repository/EmployeeRepository.java: employees are identity records with
    the claims role=EMPLOYEE, status, serviceUid and departmentUid, plus a
    document in the employees collection holding their names, the two uids
    and the creation date. Unlike the other kinds, an employee's status is
    read from its claims, not from the document. */
module EmployeeRepository {
  import opened Common
  import opened Paging
  import opened Firebase
  import opened Entities
  import opened PagedQueries

  const ROLE := RoleName(EMPLOYEE)

  /** The claims a new employee gets; a null uid is not stored. */
  function NewClaims(employee: Employee): (claims: map<string, string>)
    ensures "role" in claims && claims["role"] == ROLE
    ensures "status" in claims && claims["status"] == StatusName(ACTIVE)
    ensures "serviceUid" in claims <==> employee.serviceUid.Some?
    ensures "departmentUid" in claims <==> employee.departmentUid.Some?
    ensures employee.serviceUid.Some? ==> claims["serviceUid"] == employee.serviceUid.value
    ensures employee.departmentUid.Some? ==> claims["departmentUid"] == employee.departmentUid.value
  {
    var base := map["role" := RoleName(EMPLOYEE), "status" := StatusName(ACTIVE)];
    PutClaim(PutClaim(base, "serviceUid", employee.serviceUid), "departmentUid", employee.departmentUid)
  }

  /** `makeEmployee(record, snapshot)`: the status comes from the "status"
      claim (a missing claim throws); a missing document leaves the names
      and uids null. */
  function MakeEmployee(uid: Uid, rec: UserRecord, snap: Option<Doc>): (r: Result<Employee>)
    ensures r.Ok? <==> "status" in rec.claims && StatusValueOf(Some(rec.claims["status"])).Ok?
    ensures r.Ok? ==> ReadFrom(r.value, uid, rec, snap)
    ensures "status" !in rec.claims ==> r == Err(NullPointer)
  {
    var name :- ClaimString(rec.claims, "status");
    var status :- StatusValueOf(Some(name));
    Ok(Employee(Some(uid), rec.email, None, rec.photoUrl, rec.phoneNumber, Some(EMPLOYEE), Some(status),
                Some(rec.creationTimestamp), GetString(snap, "firstName"), GetString(snap, "lastName"),
                GetString(snap, "serviceUid"), GetString(snap, "departmentUid")))
  }

  /** Where each property of an employee read from the backends comes from. */
  predicate ReadFrom(x: Employee, uid: Uid, rec: UserRecord, snap: Option<Doc>) {
    x.uid == Some(uid) && x.role == Some(EMPLOYEE)
    && x.status.Some? && "status" in rec.claims && rec.claims["status"] == StatusName(x.status.value)
    && x.email == rec.email && x.phoneNumber == rec.phoneNumber && x.photo == rec.photoUrl
    && x.creationDate == Some(rec.creationTimestamp)
    && x.firstName == GetString(snap, "firstName") && x.lastName == GetString(snap, "lastName")
    && x.serviceUid == GetString(snap, "serviceUid") && x.departmentUid == GetString(snap, "departmentUid")
    && x.password.None?
  }

  /** `find(uid)`: only a record whose role claim is EMPLOYEE is an employee. */
  function Find(users: map<Uid, UserRecord>, coll: map<Uid, Doc>, uid: Option<Uid>): (r: Result<Employee>)
    ensures r.Ok? ==> uid.Some? && uid.value in users && HasRoleClaim(users[uid.value].claims, ROLE) == Ok(true)
    ensures r.Ok? ==> ReadFrom(r.value, uid.value, users[uid.value], SnapshotOf(coll, uid.value))
    ensures GetUserIn(users, uid).Err? ==> r == Err(GetUserIn(users, uid).error)
    ensures GetUserIn(users, uid).Ok? && HasRoleClaim(users[uid.value].claims, ROLE) == Ok(false) ==>
              r == Err(EntityNotFound("Employee", uid))
    ensures GetUserIn(users, uid).Ok? && HasRoleClaim(users[uid.value].claims, ROLE) == Ok(true) ==>
              (r.Ok? <==> "status" in users[uid.value].claims
                          && StatusValueOf(Some(users[uid.value].claims["status"])).Ok?)
  {
    var rec :- GetUserIn(users, uid);
    var isEmployee :- HasRoleClaim(rec.claims, ROLE);
    if !isEmployee then Err(EntityNotFound("Employee", uid))
    else MakeEmployee(uid.value, rec, SnapshotOf(coll, uid.value))
  }

  // ---------------------------------------------------------------------
  // findAllByDepartmentUid

  /** The lambda of `forEach`: a failed lookup is rethrown wrapped in a
      RuntimeException; every document becomes an employee, whatever the
      role of its record. */
  function MemberStep(users: map<Uid, UserRecord>, coll: map<Uid, Doc>, id: Uid): (s: Step<Employee>)
    ensures !s.Skip?
  {
    match GetUserIn(users, Some(id))
    case Err(e) => Abort(if e.FirebaseAuth? then Runtime("com.google.firebase.auth.FirebaseAuthException: " + e.message) else e)
    case Ok(rec) =>
      match MakeEmployee(id, rec, SnapshotOf(coll, id))
      case Err(e) => Abort(e)
      case Ok(x) => Keep(x)
  }

  function MemberSteps(users: map<Uid, UserRecord>, coll: map<Uid, Doc>, ids: seq<Uid>): (s: seq<Step<Employee>>)
    ensures |s| == |ids|
    ensures forall i :: 0 <= i < |ids| ==> s[i] == MemberStep(users, coll, ids[i])
  {
    seq(|ids|, i requires 0 <= i < |ids| => MemberStep(users, coll, ids[i]))
  }

  function DepartmentFilter(departmentUid: Option<Uid>): Filter {
    FieldEquals("departmentUid", StrValue(departmentUid))
  }

  /** `findAllByDepartmentUid(uid)`: every employee document whose
      "departmentUid" is `uid`, in id order; the first exception ends the
      call. */
  method FindAllByDepartmentUid(store: Backend, departmentUid: Option<Uid>) returns (r: Result<seq<Employee>>)
    ensures var c := Collect(MemberSteps(store.users, store.Coll(Employees),
                                          store.Ordered(Employees, DepartmentFilter(departmentUid), ById)));
            r == if c.error.Some? then Err(c.error.value) else Ok(c.items)
    ensures var sel := Select(store.Coll(Employees), DepartmentFilter(departmentUid));
            r.Ok? ==> |r.value| == |sel.Keys|
                      && (forall id :: id in sel ==> exists x :: x in r.value && x.uid == Some(id))
                      && (forall x :: x in r.value ==> x.departmentUid == departmentUid && x.uid.Some? && x.uid.value in sel)
  {
    var ids := store.Ordered(Employees, DepartmentFilter(departmentUid), ById);
    var c := CollectMembers(store, ids);
    r := if c.error.Some? then Err(c.error.value) else Ok(c.items);
    DepartmentMembers(store.users, store.Coll(Employees), departmentUid, ids);
  }

  /** The `forEach` of `findAllByDepartmentUid`. */
  method CollectMembers(store: Backend, ids: seq<Uid>) returns (c: Collected<Employee>)
    ensures c == Collect(MemberSteps(store.users, store.Coll(Employees), ids))
  {
    var users, coll := store.users, store.Coll(Employees);
    ghost var steps := MemberSteps(users, coll, ids);
    var employees: seq<Employee> := [];
    for i := 0 to |ids|
      invariant Collect(steps[..i]) == Collected(employees, None)
    {
      var step := MemberStep(users, coll, ids[i]);
      CollectNext(steps, i, employees);
      if step.Abort? {
        return Collected(employees, Some(step.error));
      }
      employees := employees + [step.item];
    }
    assert steps[..|ids|] == steps;
    c := Collected(employees, None);
  }

  /** The department listing is exactly the department: every employee on
      it is stored under a document whose "departmentUid" is the one asked
      for, and when the call succeeds each such document gives exactly one
      employee, read under its own uid. */
  lemma {:induction false} DepartmentMembers(users: map<Uid, UserRecord>, coll: map<Uid, Doc>, departmentUid: Option<Uid>, ids: seq<Uid>)
    requires Enumerates(ids, Select(coll, DepartmentFilter(departmentUid)).Keys)
    ensures var c := Collect(MemberSteps(users, coll, ids));
            forall x: Employee :: x in c.items ==>
              x.departmentUid == departmentUid && x.uid.Some? && x.uid.value in Select(coll, DepartmentFilter(departmentUid))
    ensures var c := Collect(MemberSteps(users, coll, ids));
            c.error.None? ==>
              |c.items| == |Select(coll, DepartmentFilter(departmentUid)).Keys|
              && (forall id :: id in Select(coll, DepartmentFilter(departmentUid)) ==> exists x :: x in c.items && x.uid == Some(id))
              && (forall i, j :: 0 <= i < j < |c.items| ==> c.items[i].uid != c.items[j].uid)
  {
    ListedInDepartment(users, coll, departmentUid, ids);
    if Collect(MemberSteps(users, coll, ids)).error.None? {
      ListingComplete(users, coll, departmentUid, ids);
    }
  }

  /** Every employee kept by the department listing belongs to a matching
      document. */
  lemma ListedInDepartment(users: map<Uid, UserRecord>, coll: map<Uid, Doc>, departmentUid: Option<Uid>, ids: seq<Uid>)
    requires forall id :: id in ids ==> id in Select(coll, DepartmentFilter(departmentUid))
    ensures forall x: Employee :: x in Collect(MemberSteps(users, coll, ids)).items ==>
              x.departmentUid == departmentUid && x.uid.Some? && x.uid.value in Select(coll, DepartmentFilter(departmentUid))
  {
    var steps := MemberSteps(users, coll, ids);
    var sel := Select(coll, DepartmentFilter(departmentUid));
    CollectBounds(steps);
    forall x: Employee | x in Collect(steps).items
      ensures x.departmentUid == departmentUid && x.uid.Some? && x.uid.value in sel
    {
      assert Keep(x) in steps;
      var i :| 0 <= i < |steps| && steps[i] == Keep(x);
      assert ids[i] in sel;
      MemberOfDepartment(users, coll, departmentUid, ids[i]);
    }
  }

  /** A department listing without an exception has one employee per
      listed id, read under that id. */
  lemma ListingComplete(users: map<Uid, UserRecord>, coll: map<Uid, Doc>, departmentUid: Option<Uid>, ids: seq<Uid>)
    requires Enumerates(ids, Select(coll, DepartmentFilter(departmentUid)).Keys)
    requires Collect(MemberSteps(users, coll, ids)).error.None?
    ensures var items := Collect(MemberSteps(users, coll, ids)).items;
            |items| == |Select(coll, DepartmentFilter(departmentUid)).Keys|
            && (forall id :: id in Select(coll, DepartmentFilter(departmentUid)) ==> exists x :: x in items && x.uid == Some(id))
            && (forall i, j :: 0 <= i < j < |items| ==> items[i].uid != items[j].uid)
  {
    var steps := MemberSteps(users, coll, ids);
    var sel := Select(coll, DepartmentFilter(departmentUid));
    KeptWhenNoError(steps);
    CollectAllKept(steps);
    var items := Collect(steps).items;
    forall i | 0 <= i < |ids| ensures items[i].uid == Some(ids[i]) {
      MemberOfDepartment(users, coll, departmentUid, ids[i]);
    }
    EnumerationSize(ids, sel.Keys);
    forall id | id in sel ensures exists x :: x in items && x.uid == Some(id) {
      var i :| 0 <= i < |ids| && ids[i] == id;
      assert items[i] in items;
    }
  }

  /** One kept document of a department listing is the employee stored
      under its id, and a member of the department. */
  lemma MemberOfDepartment(users: map<Uid, UserRecord>, coll: map<Uid, Doc>, departmentUid: Option<Uid>, id: Uid)
    requires id in coll && Matches(coll[id], DepartmentFilter(departmentUid))
    ensures MemberStep(users, coll, id).Keep? ==>
              MemberStep(users, coll, id).item.departmentUid == departmentUid
              && MemberStep(users, coll, id).item.uid == Some(id)
  {
    if MemberStep(users, coll, id).Keep? {
      assert SnapshotOf(coll, id) == Some(coll[id]);
      assert Field(Some(coll[id]), "departmentUid") == StrValue(departmentUid);
    }
  }

  /** With no error and no skipping, every step was kept. */
  lemma {:induction false} KeptWhenNoError(steps: seq<Step<Employee>>)
    requires forall i :: 0 <= i < |steps| ==> !steps[i].Skip?
    requires Collect(steps).error.None?
    ensures forall i :: 0 <= i < |steps| ==> steps[i].Keep?
  {
    if steps != [] {
      KeptWhenNoError(steps[1..]);
      forall i | 0 <= i < |steps| ensures steps[i].Keep? {
        if i > 0 {
          assert steps[i] == steps[1..][i - 1];
        }
      }
    }
  }

  // ---------------------------------------------------------------------
  // findAllByServiceUid

  /** What the loop of `findAllByServiceUid` does with one document. */
  function PageStep(users: map<Uid, UserRecord>, coll: map<Uid, Doc>, id: Uid): Step<Employee> {
    match GetUserIn(users, Some(id))
    case Err(e) => Abort(e)
    case Ok(rec) =>
      match HasRoleClaim(rec.claims, ROLE)
      case Err(e) => Abort(e)
      case Ok(isEmployee) =>
        if !isEmployee then Skip
        else match MakeEmployee(id, rec, SnapshotOf(coll, id))
          case Err(e) => Abort(e)
          case Ok(x) => Keep(x)
  }

  function PageSteps(users: map<Uid, UserRecord>, coll: map<Uid, Doc>, ids: seq<Uid>): (s: seq<Step<Employee>>)
    ensures |s| == |ids|
    ensures forall i :: 0 <= i < |ids| ==> s[i] == PageStep(users, coll, ids[i])
  {
    seq(|ids|, i requires 0 <= i < |ids| => PageStep(users, coll, ids[i]))
  }

  /** The loop agrees with `find`. */
  lemma PageStepIsFind(users: map<Uid, UserRecord>, coll: map<Uid, Doc>, id: Uid)
    ensures PageStep(users, coll, id).Keep? <==> Find(users, coll, Some(id)).Ok?
    ensures PageStep(users, coll, id).Keep? ==> PageStep(users, coll, id).item == Find(users, coll, Some(id)).value
    ensures PageStep(users, coll, id).Skip? <==> Find(users, coll, Some(id)) == Err(EntityNotFound("Employee", Some(id)))
    ensures PageStep(users, coll, id).Abort? ==> Find(users, coll, Some(id)) == Err(PageStep(users, coll, id).error)
  {
  }

  function ServiceFilter(serviceUid: Option<Uid>): Filter {
    FieldEquals("serviceUid", StrValue(serviceUid))
  }

  /** The page query: the service's employees in id order. */
  function PageQuery(serviceUid: Option<Uid>, p: Pageable): Query {
    Query(ServiceFilter(serviceUid), ById, Offset(p) as int, p.size as int)
  }

  /** The for-loop of `findAllByServiceUid`. */
  method CollectPage(store: Backend, ids: seq<Uid>) returns (c: Collected<Employee>)
    ensures c == Collect(PageSteps(store.users, store.Coll(Employees), ids))
  {
    ghost var steps := PageSteps(store.users, store.Coll(Employees), ids);
    var employees: seq<Employee> := [];
    for i := 0 to |ids|
      invariant Collect(steps[..i]) == Collected(employees, None)
    {
      CollectNext(steps, i, employees);
      var rec := store.GetUser(Some(ids[i]));
      if rec.Err? {
        return Collected(employees, Some(rec.error));
      }
      var isEmployee := HasRoleClaim(rec.value.claims, ROLE);
      if isEmployee.Err? {
        return Collected(employees, Some(isEmployee.error));
      }
      if !isEmployee.value {
        continue;
      }
      var employee := MakeEmployee(ids[i], rec.value, store.Snapshot(Employees, ids[i]));
      if employee.Err? {
        return Collected(employees, Some(employee.error));
      }
      employees := employees + [employee.value];
    }
    assert steps[..|ids|] == steps;
    c := Collected(employees, None);
  }

  /** `findAllByServiceUid(uid, pageable)`. */
  method FindAllByServiceUid(store: Backend, serviceUid: Option<Uid>, p: Pageable) returns (r: PagedResult<Employee>)
    requires Clamped(p)
    ensures var ids := store.RunQuery(Employees, PageQuery(serviceUid, p));
            r == Listing(p, Count(store.Coll(Employees), ServiceFilter(serviceUid)),
                         if ids.Err? then Err(ids.error) else Ok(PageSteps(store.users, store.Coll(Employees), ids.value)))
  {
    var total := Count(store.Coll(Employees), ServiceFilter(serviceUid));
    var documents := store.RunQuery(Employees, PageQuery(serviceUid, p));
    if documents.Err? {
      return PagedResult([], p.page as int, 0, 0);
    }
    var c := CollectPage(store, documents.value);
    if c.error.Some? {
      return PagedResult(c.items, p.page as int, 0, 0);
    }
    r := PagedResult(c.items, p.page as int, total.value, CeilDiv(total.value, p.size as int));
  }

  /** Every employee on a service's page is what `find` returns for one of
      the page's documents and belongs to that service. */
  lemma {:induction false} ServicePageItems(users: map<Uid, UserRecord>, coll: map<Uid, Doc>, serviceUid: Option<Uid>,
                                            p: Pageable, total: Result<nat>, ids: seq<Uid>)
    requires Clamped(p)
    requires forall id :: id in ids ==> id in coll && Matches(coll[id], ServiceFilter(serviceUid))
    ensures forall x: Employee :: x in Listing(p, total, Ok(PageSteps(users, coll, ids))).items ==>
              (exists i :: 0 <= i < |ids| && Find(users, coll, Some(ids[i])) == Ok(x))
              && x.role == Some(EMPLOYEE) && x.serviceUid == serviceUid
  {
    var steps := PageSteps(users, coll, ids);
    ListingFacts(p, total, Ok(steps));
    forall x | x in Listing(p, total, Ok(steps)).items
      ensures (exists i :: 0 <= i < |ids| && Find(users, coll, Some(ids[i])) == Ok(x))
              && x.role == Some(EMPLOYEE) && x.serviceUid == serviceUid
    {
      assert Keep(x) in steps;
      var i :| 0 <= i < |steps| && steps[i] == Keep(x);
      PageStepIsFind(users, coll, ids[i]);
      assert ids[i] in coll;
    }
  }

  // ---------------------------------------------------------------------
  // persist

  function NewCreateRequest(employee: Employee): CreateRequest {
    CreateRequest(employee.email, employee.password, Some(FullName(employee.firstName, employee.lastName)),
                  employee.phoneNumber, true)
  }

  /** The record `persist` creates: display name from the two names, the
      e-mail counted as verified, the phone number, and the claims. */
  function NewRecordOf(employee: Employee, now: Timestamp): UserRecord {
    NewRecord(NewCreateRequest(employee), now).(claims := NewClaims(employee))
  }

  /** The document `persist` writes: no status field. */
  function NewDocOf(employee: Employee, now: Timestamp): Doc {
    map["firstName" := StrValue(employee.firstName), "lastName" := StrValue(employee.lastName),
        "serviceUid" := StrValue(employee.serviceUid), "departmentUid" := StrValue(employee.departmentUid),
        "creationDate" := Date(now)]
  }

  /** `persist(employee)`: fails when the e-mail or the phone number is taken. */
  method Persist(store: Backend, employee: Employee, now: Timestamp) returns (r: Outcome, ghost uid: Uid)
    modifies store
    ensures r.Fail? <==> EmailTaken(old(store.users), employee.email, None) || PhoneTaken(old(store.users), employee.phoneNumber, None)
    ensures r.Fail? ==> store.users == old(store.users) && store.docs == old(store.docs)
    ensures r.Pass? ==> uid !in old(store.users) && uid != ""
                        && store.users == old(store.users)[uid := NewRecordOf(employee, now)]
                        && store.docs == old(store.docs).With(Employees, old(store.Coll(Employees))[uid := NewDocOf(employee, now)])
    ensures store.blobs == old(store.blobs)
  {
    var created := store.CreateUser(NewCreateRequest(employee), now);
    if created.Err? {
      return Fail(created.error), "";
    }
    var id := created.value;
    uid := id;
    store.SetCustomUserClaims(id, NewClaims(employee));
    store.SetDocument(Employees, id, NewDocOf(employee, now));
    r := Pass;
  }

  /** What `persist` writes, `find` reads back: e-mail, phone number, names,
      both uids, the ACTIVE status from the claims and the creation time. */
  lemma PersistThenFind(users: map<Uid, UserRecord>, coll: map<Uid, Doc>, uid: Uid, employee: Employee, now: Timestamp)
    requires uid != ""
    ensures Find(users[uid := NewRecordOf(employee, now)], coll[uid := NewDocOf(employee, now)], Some(uid))
         == Ok(Employee(Some(uid), employee.email, None, None, employee.phoneNumber, Some(EMPLOYEE), Some(ACTIVE), Some(now),
                        employee.firstName, employee.lastName, employee.serviceUid, employee.departmentUid))
  {
  }

  // ---------------------------------------------------------------------
  // update

  /** The identity record `update` leaves behind, claims aside. */
  function UpdatedRecord(rec: UserRecord, employee: Employee): UserRecord {
    rec.(displayName := Some(FullName(employee.firstName, employee.lastName)),
         email := employee.email,
         emailVerified := if employee.email != rec.email then true else rec.emailVerified,
         password := if employee.password.Some? then employee.password else rec.password,
         phoneNumber := employee.phoneNumber)
  }

  /** The claims `update` writes: the new status, and the new department
      (removed when null). */
  function UpdatedClaims(claims: map<string, string>, employee: Employee): (r: map<string, string>)
    requires employee.status.Some?
    ensures "status" in r && r["status"] == StatusName(employee.status.value)
    ensures employee.departmentUid.Some? ==> "departmentUid" in r && r["departmentUid"] == employee.departmentUid.value
    ensures employee.departmentUid.None? ==> "departmentUid" !in r
    ensures forall k :: k in claims && k != "status" && k != "departmentUid" ==> k in r && r[k] == claims[k]
  {
    PutClaim(claims["status" := StatusName(employee.status.value)], "departmentUid", employee.departmentUid)
  }

  /** The conditional setters of the update request. */
  method IdentityRequest(uid: Uid, rec: UserRecord, employee: Employee, claims: map<string, string>) returns (req: UpdateRequest)
    ensures req.uid == uid && req.photoUrl == Leave && req.claims == Set(claims)
    ensures req.displayName.Set? <==> rec.displayName != Some(FullName(employee.firstName, employee.lastName))
    ensures req.email.Set? <==> employee.email != rec.email
    ensures req.emailVerified.Set? <==> employee.email != rec.email
    ensures req.password.Set? <==> employee.password.Some?
    ensures req.phoneNumber.Set? <==> employee.phoneNumber != rec.phoneNumber
    ensures ApplyUpdate(rec, req) == UpdatedRecord(rec, employee).(claims := claims)
  {
    var name := FullName(employee.firstName, employee.lastName);
    req := NoChange(uid);
    if Some(name) != rec.displayName {
      req := req.(displayName := Set(Some(name)));
    }
    if employee.email != rec.email {
      req := req.(email := Set(employee.email), emailVerified := Set(true));
    }
    if employee.password.Some? {
      req := req.(password := Set(employee.password));
    }
    if employee.phoneNumber != rec.phoneNumber {
      req := req.(phoneNumber := Set(employee.phoneNumber));
    }
    req := req.(claims := Set(claims));
  }

  /** The document fields `update` compares: not the status, which lives in
      the claims, and not the service. */
  function Wanted(employee: Employee): map<string, Wanted> {
    map["firstName" := WantString(employee.firstName), "lastName" := WantString(employee.lastName),
        "departmentUid" := WantString(employee.departmentUid)]
  }

  method DocumentPatch(employee: Employee, snap: Option<Doc>) returns (patch: map<string, Value>)
    ensures patch == Diff(Wanted(employee), snap)
  {
    patch := map[];
    DiffNone(snap);
    DiffExtend(map[], snap, "firstName", WantString(employee.firstName));
    if employee.firstName != GetString(snap, "firstName") {
      patch := patch["firstName" := StrValue(employee.firstName)];
    }
    ghost var wanted := map["firstName" := WantString(employee.firstName)];
    DiffExtend(wanted, snap, "lastName", WantString(employee.lastName));
    if employee.lastName != GetString(snap, "lastName") {
      patch := patch["lastName" := StrValue(employee.lastName)];
    }
    wanted := wanted["lastName" := WantString(employee.lastName)];
    DiffExtend(wanted, snap, "departmentUid", WantString(employee.departmentUid));
    if employee.departmentUid != GetString(snap, "departmentUid") {
      patch := patch["departmentUid" := StrValue(employee.departmentUid)];
    }
    assert wanted["departmentUid" := WantString(employee.departmentUid)] == Wanted(employee);
  }

  /** When `update` gets through: the uid names a record, the employee has a
      status, the record has status and department claims, and a changed
      e-mail or phone number does not belong to another user. */
  predicate Updatable(users: map<Uid, UserRecord>, employee: Employee) {
    GetUserIn(users, employee.uid).Ok? && employee.status.Some?
    && var rec := users[employee.uid.value];
    "status" in rec.claims && "departmentUid" in rec.claims
    && !(employee.email != rec.email && EmailTaken(users, employee.email, employee.uid))
    && !(employee.phoneNumber != rec.phoneNumber && PhoneTaken(users, employee.phoneNumber, employee.uid))
  }

  /** `update(employee)`: identity record and claims, then the document
      patch if it is not empty; returns its argument. */
  method Update(store: Backend, employee: Employee) returns (r: Result<Employee>)
    modifies store
    ensures r.Ok? <==> Updatable(old(store.users), employee)
    ensures r.Ok? ==> r.value == employee
    ensures r.Err? ==> store.users == old(store.users) && store.docs == old(store.docs)
    ensures r.Ok? ==>
              var uid := employee.uid.value;
              var patch := Diff(Wanted(employee), old(store.Snapshot(Employees, uid)));
              var rec := old(store.users)[uid];
              store.users == old(store.users)[uid := UpdatedRecord(rec, employee).(claims := UpdatedClaims(rec.claims, employee))]
              && store.docs == old(store.docs).With(Employees, UpdateIn(old(store.Coll(Employees)), uid, patch))
              && IdentityThenPatch(old(store.calls), store.calls, uid, Employees, patch)
    ensures store.blobs == old(store.blobs)
  {
    var rec :- store.GetUser(employee.uid);
    var uid := employee.uid.value;
    var patch := DocumentPatch(employee, store.Snapshot(Employees, uid));
    if employee.status.None? {
      return Err(NullPointer);
    }
    var currentStatus :- ClaimString(rec.claims, "status");
    var currentDepartment :- ClaimString(rec.claims, "departmentUid");
    var claims := UpdatedClaims(rec.claims, employee);
    var req := IdentityRequest(uid, rec, employee, claims);
    var updated := store.UpdateUser(req);
    if updated.Fail? {
      return Err(updated.error);
    }
    if patch != map[] {
      store.UpdateDocument(Employees, uid, patch);
    } else {
      UpdateInEmpty(store.Coll(Employees), uid);
    }
    r := Ok(employee);
  }

  /** Writing back an employee just read changes no document field. */
  lemma FoundHasEmptyPatch(users: map<Uid, UserRecord>, coll: map<Uid, Doc>, uid: Uid)
    requires Find(users, coll, Some(uid)).Ok?
    ensures Diff(Wanted(Find(users, coll, Some(uid)).value), SnapshotOf(coll, uid)) == map[]
  {
    DiffEmptyIff(Wanted(Find(users, coll, Some(uid)).value), SnapshotOf(coll, uid));
  }

  // ---------------------------------------------------------------------
  // delete

  /** `delete(uid)`: the identity record, then the document. */
  method Delete(store: Backend, uid: Uid) returns (r: Outcome)
    modifies store
    ensures r.Pass? <==> uid in old(store.users)
    ensures store.users == old(store.users) - {uid}
    ensures r.Pass? ==> store.docs == old(store.docs).With(Employees, old(store.Coll(Employees)) - {uid})
    ensures r.Fail? ==> store.docs == old(store.docs)
    ensures store.blobs == old(store.blobs)
  {
    r := store.DeleteUser(uid);
    if r.Fail? {
      return;
    }
    store.DeleteDocument(Employees, uid);
  }
}
