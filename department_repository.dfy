/** repository/DepartmentRepository.java: departments are plain documents of
    the departments collection, keyed by a Firestore-generated id, each
    naming the service it belongs to. */
module DepartmentRepository {
  import opened Common
  import opened Paging
  import opened Firebase
  import opened Entities

  /** `collection.document(uid)`: a null id throws, an empty id is not a
      valid document path. */
  function DocumentRef(uid: Option<Uid>): (r: Result<Uid>)
    ensures r.Ok? <==> uid.Some? && uid.value != ""
    ensures r.Ok? ==> r.value == uid.value
  {
    if uid.None? then Err(NullPointer)
    else if uid.value == "" then Err(IllegalArgument("Path must be a non-empty string"))
    else Ok(uid.value)
  }

  /** `(List<Long>) snapshot.get("categories")`: anything but a list or null
      fails the cast. */
  function Categories(snap: Doc): (r: Result<Option<seq<int>>>)
    ensures r.Ok? <==> Field(Some(snap), "categories").Longs? || Field(Some(snap), "categories").Null?
    ensures r.Ok? ==> LongsValue(r.value) == Field(Some(snap), "categories")
  {
    match Field(Some(snap), "categories")
    case Null => Ok(None)
    case Longs(xs) => Ok(Some(xs))
    case _ => Err(ClassCast)
  }

  /** `snapshotToEntity(snapshot)`: a missing creation date throws. */
  function SnapshotToEntity(id: Uid, snap: Doc): (r: Result<Department>)
    ensures r.Ok? <==> GetDate(Some(snap), "creationDate").Some? && Categories(snap).Ok?
    ensures r.Ok? ==> r.value.uid == Some(id) && r.value.creationDate == GetDate(Some(snap), "creationDate")
                      && r.value.serviceUid == GetString(Some(snap), "serviceUid")
                      && r.value.name == GetString(Some(snap), "name")
                      && LongsValue(r.value.categories) == Field(Some(snap), "categories")
  {
    var created := GetDate(Some(snap), "creationDate");
    if created.None? then Err(NullPointer)
    else
      var categories :- Categories(snap);
      Ok(Department(Some(id), GetString(Some(snap), "name"), GetString(Some(snap), "description"),
                    GetString(Some(snap), "address"), GetString(Some(snap), "phoneNumber"), created,
                    categories, GetString(Some(snap), "serviceUid")))
  }

  /** `entityToMap(department)`: a null creation date throws; the uid is not
      stored. */
  function EntityToMap(d: Department): (r: Result<Doc>)
    ensures r.Ok? <==> d.creationDate.Some?
    ensures r.Ok? ==> "serviceUid" in r.value && r.value["serviceUid"] == StrValue(d.serviceUid)
  {
    if d.creationDate.None? then Err(NullPointer)
    else Ok(map["name" := StrValue(d.name), "description" := StrValue(d.description),
                "address" := StrValue(d.address), "phoneNumber" := StrValue(d.phoneNumber),
                "creationDate" := Date(d.creationDate.value), "categories" := LongsValue(d.categories),
                "serviceUid" := StrValue(d.serviceUid)])
  }

  /** A department written by `entityToMap` reads back as itself under its
      new id. */
  lemma {:induction false} EntityRoundTrip(d: Department, id: Uid)
    requires EntityToMap(d).Ok?
    ensures SnapshotToEntity(id, EntityToMap(d).value) == Ok(d.(uid := Some(id)))
  {
    var m := EntityToMap(d).value;
    assert Field(Some(m), "categories") == LongsValue(d.categories);
    assert Categories(m) == Ok(d.categories);
  }

  /** `find(uid)`. */
  function Find(coll: map<Uid, Doc>, uid: Option<Uid>): (r: Result<Department>)
    ensures r.Ok? ==> uid.Some? && uid.value in coll && r.value.uid == uid
    ensures DocumentRef(uid).Ok? && uid.value !in coll ==> r == Err(NotFound("Department not found"))
    ensures DocumentRef(uid).Ok? && uid.value in coll ==> r == SnapshotToEntity(uid.value, coll[uid.value])
  {
    var id :- DocumentRef(uid);
    if id !in coll then Err(NotFound("Department not found"))
    else SnapshotToEntity(id, coll[id])
  }

  /** `exists(uid)`. */
  function Exists(coll: map<Uid, Doc>, uid: Uid): (b: bool)
    ensures b <==> SnapshotOf(coll, uid).Some?
  {
    uid in coll
  }

  // ---------------------------------------------------------------------
  // findByServiceUid

  function ServiceFilter(serviceUid: Option<Uid>): Filter {
    FieldEquals("serviceUid", StrValue(serviceUid))
  }

  function PageQuery(serviceUid: Option<Uid>, p: Pageable): Query {
    Query(ServiceFilter(serviceUid), ById, Offset(p) as int, p.size as int)
  }

  function PageStep(coll: map<Uid, Doc>, id: Uid): Step<Department> {
    if id !in coll then Abort(NullPointer)
    else match SnapshotToEntity(id, coll[id])
      case Err(e) => Abort(e)
      case Ok(d) => Keep(d)
  }

  function PageSteps(coll: map<Uid, Doc>, ids: seq<Uid>): (s: seq<Step<Department>>)
    ensures |s| == |ids|
    ensures forall i :: 0 <= i < |ids| ==> s[i] == PageStep(coll, ids[i])
  {
    seq(|ids|, i requires 0 <= i < |ids| => PageStep(coll, ids[i]))
  }

  /** The page `findByServiceUid` returns for the documents it got, or the
      first exception: none is caught. */
  function PageOf(p: Pageable, total: nat, steps: seq<Step<Department>>): Result<PagedResult<Department>>
    requires Clamped(p)
  {
    var c := Collect(steps);
    if c.error.Some? then Err(c.error.value)
    else Ok(PagedResult(c.items, p.page as int, total, CeilDiv(total, p.size as int)))
  }

  /** The `forEach` of `findByServiceUid` over the documents of one page. */
  method CollectPage(store: Backend, ids: seq<Uid>) returns (c: Collected<Department>)
    requires forall id :: id in ids ==> id in store.Coll(Departments)
    ensures c == Collect(PageSteps(store.Coll(Departments), ids))
  {
    ghost var steps := PageSteps(store.Coll(Departments), ids);
    var departments: seq<Department> := [];
    for i := 0 to |ids|
      invariant Collect(steps[..i]) == Collected(departments, None)
    {
      CollectNext(steps, i, departments);
      var d := SnapshotToEntity(ids[i], store.Coll(Departments)[ids[i]]);
      if d.Err? {
        return Collected(departments, Some(d.error));
      }
      departments := departments + [d.value];
    }
    assert steps[..|ids|] == steps;
    c := Collected(departments, None);
  }

  /** `findByServiceUid(uid, pageable)`. */
  method FindByServiceUid(store: Backend, serviceUid: Option<Uid>, p: Pageable) returns (r: Result<PagedResult<Department>>)
    requires Clamped(p)
    ensures var ids := store.RunQuery(Departments, PageQuery(serviceUid, p));
            r == if ids.Err? then Err(ids.error)
                 else PageOf(p, Count(store.Coll(Departments), ServiceFilter(serviceUid)).value,
                             PageSteps(store.Coll(Departments), ids.value))
  {
    var total := Count(store.Coll(Departments), ServiceFilter(serviceUid)).value;
    var documents :- store.RunQuery(Departments, PageQuery(serviceUid, p));
    var c := CollectPage(store, documents);
    if c.error.Some? {
      return Err(c.error.value);
    }
    r := Ok(PagedResult(c.items, p.page as int, total, CeilDiv(total, p.size as int)));
  }

  /** Every department on a service's page belongs to that service, is what
      `find` returns for its id, and the page holds at most `size` of them. */
  lemma {:induction false} PageItemsBelong(coll: map<Uid, Doc>, serviceUid: Option<Uid>, p: Pageable, total: nat, ids: seq<Uid>)
    requires Clamped(p) && |ids| <= p.size as int
    requires forall id :: id in ids ==> id in coll && Matches(coll[id], ServiceFilter(serviceUid))
    requires PageOf(p, total, PageSteps(coll, ids)).Ok?
    ensures |PageOf(p, total, PageSteps(coll, ids)).value.items| <= p.size as int
    ensures forall d: Department :: d in PageOf(p, total, PageSteps(coll, ids)).value.items ==>
              d.serviceUid == serviceUid && d.uid.Some? && d.uid.value in coll
              && (d.uid.value != "" ==> Find(coll, d.uid) == Ok(d))
  {
    var steps := PageSteps(coll, ids);
    CollectBounds(steps);
    forall d: Department | d in Collect(steps).items
      ensures d.serviceUid == serviceUid && d.uid.Some? && d.uid.value in coll
              && (d.uid.value != "" ==> Find(coll, d.uid) == Ok(d))
    {
      assert Keep(d) in steps;
      var i :| 0 <= i < |steps| && steps[i] == Keep(d);
      assert ids[i] in ids;
    }
  }

  // ---------------------------------------------------------------------
  // persist, update, delete

  /** `persist(department)`: the document goes under a fresh id. */
  method Persist(store: Backend, department: Department) returns (r: Outcome, ghost id: Uid)
    modifies store
    ensures r.Pass? <==> department.creationDate.Some?
    ensures r.Fail? ==> store.docs == old(store.docs)
    ensures r.Pass? ==> id !in old(store.Coll(Departments)) && id != ""
                        && store.docs == old(store.docs).With(Departments, old(store.Coll(Departments))[id := EntityToMap(department).value])
    ensures store.users == old(store.users) && store.blobs == old(store.blobs)
  {
    var data := EntityToMap(department);
    if data.Err? {
      return Fail(data.error), "";
    }
    var newId := store.AddDocument(Departments, data.value);
    id := newId;
    r := Pass;
  }

  /** A persisted department is found under its new id, as it was given. */
  lemma PersistThenFind(coll: map<Uid, Doc>, id: Uid, department: Department)
    requires id != "" && EntityToMap(department).Ok?
    ensures Find(coll[id := EntityToMap(department).value], Some(id)) == Ok(department.(uid := Some(id)))
  {
    EntityRoundTrip(department, id);
  }

  /** The fields `update` compares: the name, description, address and phone
      number as strings, the category list as a stored value. */
  function Wanted(d: Department): map<string, Wanted> {
    map["name" := WantString(d.name), "description" := WantString(d.description),
        "address" := WantString(d.address), "phoneNumber" := WantString(d.phoneNumber),
        "categories" := WantValue(LongsValue(d.categories))]
  }

  method DocumentPatch(d: Department, snap: Option<Doc>) returns (patch: map<string, Value>)
    ensures patch == Diff(Wanted(d), snap)
  {
    patch := map[];
    DiffNone(snap);
    DiffExtend(map[], snap, "name", WantString(d.name));
    if d.name != GetString(snap, "name") {
      patch := patch["name" := StrValue(d.name)];
    }
    ghost var wanted := map["name" := WantString(d.name)];
    DiffExtend(wanted, snap, "description", WantString(d.description));
    if d.description != GetString(snap, "description") {
      patch := patch["description" := StrValue(d.description)];
    }
    wanted := wanted["description" := WantString(d.description)];
    DiffExtend(wanted, snap, "address", WantString(d.address));
    if d.address != GetString(snap, "address") {
      patch := patch["address" := StrValue(d.address)];
    }
    wanted := wanted["address" := WantString(d.address)];
    DiffExtend(wanted, snap, "phoneNumber", WantString(d.phoneNumber));
    if d.phoneNumber != GetString(snap, "phoneNumber") {
      patch := patch["phoneNumber" := StrValue(d.phoneNumber)];
    }
    wanted := wanted["phoneNumber" := WantString(d.phoneNumber)];
    DiffExtend(wanted, snap, "categories", WantValue(LongsValue(d.categories)));
    if LongsValue(d.categories) != Field(snap, "categories") {
      patch := patch["categories" := LongsValue(d.categories)];
    }
    assert wanted["categories" := WantValue(LongsValue(d.categories))] == Wanted(d);
  }

  /** `update(department)`: the changed fields are written, the creation
      date and the service are never touched; a missing document stays
      missing. Returns its argument. */
  method Update(store: Backend, department: Department) returns (r: Result<Department>)
    modifies store
    ensures r.Ok? <==> DocumentRef(department.uid).Ok?
    ensures r.Ok? ==> r.value == department
    ensures r.Err? ==> store.docs == old(store.docs)
    ensures r.Ok? ==>
              var id := department.uid.value;
              var patch := Diff(Wanted(department), old(store.Snapshot(Departments, id)));
              store.docs == old(store.docs).With(Departments, UpdateIn(old(store.Coll(Departments)), id, patch))
              && store.calls == old(store.calls) + (if patch == map[] then [] else [UpdateDocCall(Departments, id, patch)])
    ensures store.users == old(store.users) && store.blobs == old(store.blobs)
  {
    var id :- DocumentRef(department.uid);
    var patch := DocumentPatch(department, store.Snapshot(Departments, id));
    if patch != map[] {
      store.UpdateDocument(Departments, id, patch);
    } else {
      UpdateInEmpty(store.Coll(Departments), id);
    }
    r := Ok(department);
  }

  /** Updating only ever changes the five compared fields of the stored
      document. */
  lemma UpdateKeepsOtherFields(d: Department, stored: Doc, f: string)
    requires f !in Wanted(d)
    ensures Field(Some(Patch(stored, Diff(Wanted(d), Some(stored)))), f) == Field(Some(stored), f)
  {
    PatchMakesAgree(Wanted(d), stored);
  }

  /** `delete(uid)`. */
  method Delete(store: Backend, uid: Uid)
    modifies store
    ensures store.docs == old(store.docs).With(Departments, old(store.Coll(Departments)) - {uid})
    ensures store.users == old(store.users) && store.blobs == old(store.blobs)
  {
    store.DeleteDocument(Departments, uid);
  }
}
