/** controller/ServiceController.java: the public view of a service, the
    analysts' service list, and a service's own profile, departments and
    employees. Tokens come from the authorization gate. Finding F3 (the
    profile update always fails) is modelled as written and corrected. */
module ServiceController {
  import opened Common
  import opened Paging
  import opened Firebase
  import opened Entities
  import opened PagedQueries
  import S = ServiceRepository
  import SS = ServiceService
  import DS = DepartmentService
  import ES = EmployeeService
  import D = DepartmentRepository
  import E = EmployeeRepository

  const SERVICE_NOT_VISIBLE := NotFound("Resident not found")

  /** `ServiceOrderBy`: the fields the service list may be sorted by. */
  datatype ServiceOrderBy = CREATION_DATE | NAME | ADDRESS

  function FieldName(o: ServiceOrderBy): string {
    match o
    case CREATION_DATE => "creationDate"
    case NAME => "name"
    case ADDRESS => "address"
  }

  /** The sort field both `DepartmentOrderBy.SERVICE_UID` and
      `EmployeeOrderBy.SERVICE_UID` name. */
  const SERVICE_UID_FIELD := "serviceUid"

  /** `Order`, named by the Firestore direction it stands for. */
  datatype Order = ASC | DESC

  function OrderName(o: Order): string {
    match o
    case ASC => "ASCENDING"
    case DESC => "DESCENDING"
  }

  /** `Query.Direction.valueOf(name)`. */
  function DirectionValueOf(name: string): (r: Result<Direction>)
    ensures r == Ok(ASCENDING) <==> name == "ASCENDING"
    ensures r == Ok(DESCENDING) <==> name == "DESCENDING"
  {
    if name == "ASCENDING" then Ok(ASCENDING)
    else if name == "DESCENDING" then Ok(DESCENDING)
    else Err(IllegalArgument("No enum constant com.google.cloud.firestore.Query.Direction." + name))
  }

  /** `Query.Direction.valueOf(order.getFieldName())`: never fails, ASC is
      ascending and DESC descending. */
  function DirectionOf(o: Order): (d: Direction)
    ensures DirectionValueOf(OrderName(o)) == Ok(d)
    ensures o == ASC <==> d == ASCENDING
    ensures o == DESC <==> d == DESCENDING
  {
    DirectionValueOf(OrderName(o)).value
  }

  /** The JSON object of a list endpoint: the page's items under `key`, and
      the three counters of the page. */
  datatype PageResponse<T> = PageResponse(key: string, items: seq<T>, currentPage: int, totalItems: nat, totalPages: nat)

  /** The response copies the page's items and counters unchanged. */
  function Respond<T>(key: string, page: PagedResult<T>): (resp: PageResponse<T>)
    ensures resp.key == key && resp.items == page.items
    ensures resp.currentPage == page.currentPage && resp.totalItems == page.totalItems && resp.totalPages == page.totalPages
  {
    PageResponse(key, page.items, page.currentPage, page.totalItems, page.totalPages)
  }

  // ---------------------------------------------------------------------
  // getService

  /** `getService(uid)`: deleted and banned services are reported as not
      found (with the message "Resident not found"), so only an ACTIVE one
      is shown. */
  function GetService(users: map<Uid, UserRecord>, coll: map<Uid, Doc>, uid: Uid): (r: Result<Service>)
    ensures r.Ok? <==> SS.GetService(users, coll, uid).Ok? && SS.GetService(users, coll, uid).value.status == Some(ACTIVE)
    ensures r.Ok? ==> r == SS.GetService(users, coll, uid)
    ensures SS.GetService(users, coll, uid).Err? ==> r == SS.GetService(users, coll, uid)
    ensures SS.GetService(users, coll, uid).Ok? && SS.GetService(users, coll, uid).value.status != Some(ACTIVE) ==>
              r == Err(SERVICE_NOT_VISIBLE)
  {
    var service :- SS.GetService(users, coll, uid);
    if service.status == Some(DELETED) || service.status == Some(BANNED) then Err(SERVICE_NOT_VISIBLE)
    else Ok(service)
  }

  // ---------------------------------------------------------------------
  // getServices

  /** The Pageable of `getServices`: sorted by creation date, newest first,
      unless the request says otherwise. */
  function ServicesPageable(page: Int32, size: Int32, orderBy: Option<ServiceOrderBy>, order: Option<Order>): (p: Pageable)
    ensures Clamped(p)
    ensures p.sortBy == Some(FieldName(if orderBy.Some? then orderBy.value else CREATION_DATE))
    ensures p.sortDirection == if order.Some? then DirectionOf(order.value) else DESCENDING
    ensures page >= 0 ==> p.page == page
    ensures size >= 1 ==> p.size == size
  {
    var field := if orderBy.Some? then orderBy.value else CREATION_DATE;
    var dir := if order.Some? then order.value else DESC;
    NewPageable(page, size, Some(FieldName(field)), DirectionOf(dir))
  }

  /** Without `order_by` and `order` the list query is the whole collection
      ordered by "creationDate", descending; it never fails for want of a
      sort field. */
  lemma DefaultOrderIsNewestFirst(page: Int32, size: Int32)
    ensures var p := ServicesPageable(page, size, None, None);
            ItemsQuery(None, p) == Ok(Query(AllDocs, ByField("creationDate", DESCENDING), Offset(p) as int, p.size as int))
  {
  }

  /** `getServices(page, size, order_by, order)`: every status, the page the
      repository returns, and its counters. */
  method GetServices(store: Backend, page: Int32, size: Int32, orderBy: Option<ServiceOrderBy>, order: Option<Order>)
    returns (resp: PageResponse<Service>)
    ensures var p := ServicesPageable(page, size, orderBy, order);
            var ids := PageIds(store, Services, None, p);
            resp == Respond("services", Listing(p, Count(store.Coll(Services), StatusFilter(None)),
                                                if ids.Err? then Err(ids.error) else Ok(S.PageSteps(store.users, store.Coll(Services), ids.value))))
    ensures resp.currentPage == ServicesPageable(page, size, orderBy, order).page as int
  {
    var p := ServicesPageable(page, size, orderBy, order);
    var services := S.FindAll(store, None, p);
    ghost var ids := PageIds(store, Services, None, p);
    ListingFacts(p, Count(store.Coll(Services), StatusFilter(None)),
                 if ids.Err? then Err(ids.error) else Ok(S.PageSteps(store.users, store.Coll(Services), ids.value)));
    resp := Respond("services", services);
  }

  // ---------------------------------------------------------------------
  // updateCurrentService

  /** The body of the PATCH: `UpdateServiceRequestDto`. */
  datatype ServiceChanges = ServiceChanges(email: Option<string>, phoneNumber: Option<string>, name: Option<string>,
                                           description: Option<string>, address: Option<string>, password: Option<string>)

  /** `modelMapper.map(requestDto, Service.class)` then `setUid(token uid)`:
      no status, no role, no creation date. */
  function ServiceOf(dto: ServiceChanges, uid: Uid): (x: Service)
    ensures x.uid == Some(uid) && x.status.None? && x.role.None?
  {
    Service(Some(uid), dto.email, dto.password, None, dto.phoneNumber, None, None, None, dto.name, dto.description, dto.address)
  }

  /** The body's non-null properties copied onto a service. */
  function ApplyChanges(dto: ServiceChanges, service: Service): (x: Service)
    ensures x.uid == service.uid && x.status == service.status && x.role == service.role
    ensures x.creationDate == service.creationDate && x.photo == service.photo
    ensures x.email == (if dto.email.Some? then dto.email else service.email)
    ensures x.name == (if dto.name.Some? then dto.name else service.name)
    ensures x.address == (if dto.address.Some? then dto.address else service.address)
  {
    service.(email := Pick(dto.email, service.email), phoneNumber := Pick(dto.phoneNumber, service.phoneNumber),
             name := Pick(dto.name, service.name), description := Pick(dto.description, service.description),
             address := Pick(dto.address, service.address), password := Pick(dto.password, service.password))
  }

  /** `updateCurrentService(requestDto)` as written (finding F3): the
      service handed to `update` has no status, so the update never gets
      through and nothing is ever written. */
  method UpdateCurrentServiceAsWritten(store: Backend, token: FirebaseToken, dto: ServiceChanges) returns (r: Result<Service>)
    modifies store
    ensures r.Err?
    ensures store.users == old(store.users) && store.docs == old(store.docs) && store.blobs == old(store.blobs)
  {
    r := SS.UpdateService(store, ServiceOf(dto, token.uid));
  }

  /** F3 on its own: no body makes the as-written service updatable. */
  lemma AsWrittenNeverUpdatable(users: map<Uid, UserRecord>, token: FirebaseToken, dto: ServiceChanges)
    ensures !S.Updatable(users, ServiceOf(dto, token.uid))
  {
  }

  /** `updateCurrentService(requestDto)` corrected: the body is merged onto
      the caller's stored service, as the resident and analyst updates do,
      so the uid is the token's and the status is the stored one. */
  method UpdateCurrentService(store: Backend, token: FirebaseToken, dto: ServiceChanges) returns (r: Result<Service>)
    modifies store
    ensures var found := old(SS.GetService(store.users, store.Coll(Services), token.uid));
            (found.Err? ==> r == Err(found.error))
            && (found.Ok? ==>
                  var x := ApplyChanges(dto, found.value);
                  (r.Ok? <==> S.Updatable(old(store.users), x))
                  && (r.Ok? ==> r.value == x && r.value.uid == Some(token.uid)
                                && SS.WroteBack(old(store.users), old(store.docs), store.users, store.docs, x)))
            && (r.Err? ==> store.users == old(store.users) && store.docs == old(store.docs))
    ensures store.blobs == old(store.blobs)
  {
    var found :- SS.GetService(store.users, store.Coll(Services), token.uid);
    r := SS.UpdateService(store, ApplyChanges(dto, found));
  }

  /** With the correction, a caller whose record carries its status claim
      and whose body takes no one else's e-mail or phone number is always
      updated: the status is never missing. */
  lemma {:induction false} CorrectedUpdatable(users: map<Uid, UserRecord>, coll: map<Uid, Doc>, token: FirebaseToken, dto: ServiceChanges)
    requires SS.GetService(users, coll, token.uid).Ok?
    ensures var x := ApplyChanges(dto, SS.GetService(users, coll, token.uid).value);
            var rec := users[token.uid];
            S.Updatable(users, x) <==>
              "status" in rec.claims
              && !(x.email != rec.email && EmailTaken(users, x.email, Some(token.uid)))
              && !(x.phoneNumber != rec.phoneNumber && PhoneTaken(users, x.phoneNumber, Some(token.uid)))
  {
    var x := ApplyChanges(dto, SS.GetService(users, coll, token.uid).value);
    assert x.uid == Some(token.uid) && x.status.Some?;
    assert GetUserIn(users, x.uid).Ok?;
  }

  // ---------------------------------------------------------------------
  // getDepartments, getEmployees

  /** The Pageable of both of the caller's lists: sorted by "serviceUid",
      descending. */
  function OwnListPageable(page: Int32, size: Int32): (p: Pageable)
    ensures Clamped(p) && p.sortBy == Some(SERVICE_UID_FIELD) && p.sortDirection == DESCENDING
    ensures page >= 0 ==> p.page == page
    ensures size >= 1 ==> p.size == size
  {
    NewPageable(page, size, Some(SERVICE_UID_FIELD), DirectionOf(DESC))
  }

  /** `getDepartments(page, size)`: a page of the caller's own departments;
      a failure of the query or of a document propagates. */
  method GetDepartments(store: Backend, token: FirebaseToken, page: Int32, size: Int32) returns (r: Result<PageResponse<Department>>)
    ensures var p := OwnListPageable(page, size);
            var ids := store.RunQuery(Departments, D.PageQuery(Some(token.uid), p));
            (ids.Err? ==> r == Err(ids.error))
            && (ids.Ok? ==>
                  var pg := D.PageOf(p, Count(store.Coll(Departments), D.ServiceFilter(Some(token.uid))).value,
                                     D.PageSteps(store.Coll(Departments), ids.value));
                  (r.Ok? <==> pg.Ok?) && (r.Ok? ==> r.value == Respond("departments", pg.value)))
    ensures r.Ok? ==> |r.value.items| <= OwnListPageable(page, size).size as int
                      && forall d :: d in r.value.items ==> d.serviceUid == Some(token.uid)
  {
    var p := OwnListPageable(page, size);
    var departments :- DS.GetDepartmentsByServiceUid(store, token.uid, p);
    r := Ok(Respond("departments", departments));
  }

  /** `getEmployees(page, size)`: a page of the caller's own employees; a
      failure yields an empty or partial page with zero counters. */
  method GetEmployees(store: Backend, token: FirebaseToken, page: Int32, size: Int32) returns (resp: PageResponse<Employee>)
    ensures var p := OwnListPageable(page, size);
            var ids := store.RunQuery(Employees, E.PageQuery(Some(token.uid), p));
            resp == Respond("employees", Listing(p, Count(store.Coll(Employees), E.ServiceFilter(Some(token.uid))),
                                                 if ids.Err? then Err(ids.error) else Ok(E.PageSteps(store.users, store.Coll(Employees), ids.value))))
    ensures forall x :: x in resp.items ==> x.role == Some(EMPLOYEE) && x.serviceUid == Some(token.uid)
  {
    var p := OwnListPageable(page, size);
    var employees := ES.GetEmployeesByServiceUid(store, token.uid, p);
    resp := Respond("employees", employees);
  }
}
