/** The external state the user directory works on: the Firebase identity
    store (user records with custom claims), the Firestore document
    collections, the storage bucket and the ID tokens Firebase would accept.
    Every call is synchronous here; a Firestore write whose future the code
    never waits on counts as completed. */
module Firebase {
  import opened Common
  import opened Paging

  // ---------------------------------------------------------------------
  // Firestore documents

  /** A stored field value. Lists are the `List<Long>` the departments keep. */
  datatype Value = Null | Str(s: string) | Date(t: Timestamp) | Longs(xs: seq<int>)

  type Doc = map<string, Value>

  /** How a nullable Java string is stored. */
  function StrValue(x: Option<string>): (v: Value)
    ensures x.Some? ==> v == Str(x.value)
    ensures x.None? ==> v == Null
  {
    if x.Some? then Str(x.value) else Null
  }

  /** How a nullable `List<Long>` is stored. */
  function LongsValue(x: Option<seq<int>>): (v: Value)
    ensures x.Some? ==> v == Longs(x.value)
    ensures x.None? ==> v == Null
  {
    if x.Some? then Longs(x.value) else Null
  }

  /** `snapshot.get(f)`: null for a missing document or a missing field. */
  function Field(snap: Option<Doc>, f: string): Value {
    if snap.Some? && f in snap.value then snap.value[f] else Null
  }

  /** `snapshot.getString(f)`. */
  function GetString(snap: Option<Doc>, f: string): Option<string> {
    match Field(snap, f)
    case Str(s) => Some(s)
    case _ => None
  }

  /** `snapshot.getDate(f)`. */
  function GetDate(snap: Option<Doc>, f: string): Option<Timestamp> {
    match Field(snap, f)
    case Date(t) => Some(t)
    case _ => None
  }

  /** `(List<Long>) snapshot.get(f)`. */
  function GetLongs(snap: Option<Doc>, f: string): Option<seq<int>> {
    match Field(snap, f)
    case Longs(xs) => Some(xs)
    case _ => None
  }

  /** Reading back a stored string gives the string, null included. */
  lemma GetStringOfStored(d: Doc, f: string, x: Option<string>)
    ensures GetString(Some(d[f := StrValue(x)]), f) == x
  {
  }

  /** The value an update routine wants a field to have, and how it compares
      it with the stored one: `Objects.equals(x, snapshot.getString(f))` for a
      string, `Objects.equals(x, snapshot.get(f))` for any other value. */
  datatype Wanted = WantString(s: Option<string>) | WantValue(v: Value)

  function Stored(w: Wanted): Value {
    match w
    case WantString(s) => StrValue(s)
    case WantValue(v) => v
  }

  predicate Agrees(w: Wanted, snap: Option<Doc>, f: string) {
    match w
    case WantString(s) => s == GetString(snap, f)
    case WantValue(v) => v == Field(snap, f)
  }

  /** The fields an update routine puts into its patch map: exactly the
      wanted fields that disagree with the snapshot. */
  function Diff(wanted: map<string, Wanted>, snap: Option<Doc>): map<string, Value> {
    map f | f in wanted && !Agrees(wanted[f], snap, f) :: Stored(wanted[f])
  }

  /** Adding one wanted field adds it to the patch exactly when it disagrees:
      the step the update routines' conditional puts take. */
  lemma DiffExtend(wanted: map<string, Wanted>, snap: Option<Doc>, f: string, w: Wanted)
    requires f !in wanted
    ensures Diff(wanted[f := w], snap) ==
            if Agrees(w, snap, f) then Diff(wanted, snap) else Diff(wanted, snap)[f := Stored(w)]
  {
  }

  lemma DiffNone(snap: Option<Doc>)
    ensures Diff(map[], snap) == map[]
  {
  }

  /** `DocumentReference.update(patch)`: fields merged in, other fields kept. */
  function Patch(d: Doc, patch: map<string, Value>): Doc {
    d + patch
  }

  /** The patch is empty exactly when every wanted field already agrees: the
      condition under which no document write is issued. */
  lemma DiffEmptyIff(wanted: map<string, Wanted>, snap: Option<Doc>)
    ensures Diff(wanted, snap) == map[] <==> forall f :: f in wanted ==> Agrees(wanted[f], snap, f)
  {
    if Diff(wanted, snap) == map[] {
      forall f | f in wanted ensures Agrees(wanted[f], snap, f) {
        assert f !in Diff(wanted, snap);
      }
    }
  }

  /** After the patch is applied every wanted field agrees, and no field
      outside `wanted` has changed. */
  lemma {:induction false} PatchMakesAgree(wanted: map<string, Wanted>, d: Doc)
    ensures forall f :: f in wanted ==> Agrees(wanted[f], Some(Patch(d, Diff(wanted, Some(d)))), f)
    ensures forall f :: f !in wanted ==> Field(Some(Patch(d, Diff(wanted, Some(d)))), f) == Field(Some(d), f)
  {
    var p := Diff(wanted, Some(d));
    forall f | f in wanted ensures Agrees(wanted[f], Some(Patch(d, p)), f) {
      if f in p {
        assert Field(Some(Patch(d, p)), f) == Stored(wanted[f]);
      } else {
        assert Field(Some(Patch(d, p)), f) == Field(Some(d), f);
      }
    }
  }

  /** Issuing the same update twice: the second patch is empty. */
  lemma DiffIdempotent(wanted: map<string, Wanted>, d: Doc)
    ensures Diff(wanted, Some(Patch(d, Diff(wanted, Some(d))))) == map[]
  {
    PatchMakesAgree(wanted, d);
    DiffEmptyIff(wanted, Some(Patch(d, Diff(wanted, Some(d)))));
  }

  /** The five document collections, one per kind of record. */
  datatype CollectionName = Residents | Services | Analysts | Employees | Departments

  datatype Collections = Collections(
    residents: map<Uid, Doc>, services: map<Uid, Doc>, analysts: map<Uid, Doc>,
    employees: map<Uid, Doc>, departments: map<Uid, Doc>)
  {
    function Get(c: CollectionName): map<Uid, Doc> {
      match c
      case Residents => residents
      case Services => services
      case Analysts => analysts
      case Employees => employees
      case Departments => departments
    }

    function With(c: CollectionName, m: map<Uid, Doc>): (r: Collections)
      ensures r.Get(c) == m
      ensures forall c' :: c' != c ==> r.Get(c') == Get(c')
    {
      match c
      case Residents => this.(residents := m)
      case Services => this.(services := m)
      case Analysts => this.(analysts := m)
      case Employees => this.(employees := m)
      case Departments => this.(departments := m)
    }
  }

  function EmptyCollections(): Collections {
    Collections(map[], map[], map[], map[], map[])
  }

  /** `collection.document(id).get()`: absent when no document exists. */
  function SnapshotOf(coll: map<Uid, Doc>, id: Uid): (s: Option<Doc>)
    ensures s.Some? <==> id in coll
  {
    if id in coll then Some(coll[id]) else None
  }

  /** `update(patch)` on a document: Firestore rejects the write when the
      document does not exist; the code never waits for that answer, so the
      collection stays unchanged. */
  function UpdateIn(coll: map<Uid, Doc>, id: Uid, patch: map<string, Value>): map<Uid, Doc> {
    if id in coll then coll[id := Patch(coll[id], patch)] else coll
  }

  /** An empty patch changes nothing. */
  lemma UpdateInEmpty(coll: map<Uid, Doc>, id: Uid)
    ensures UpdateIn(coll, id, map[]) == coll
  {
    if id in coll {
      assert Patch(coll[id], map[]) == coll[id];
    }
  }

  // ---------------------------------------------------------------------
  // Firestore queries

  /** The `where` part of a query. */
  datatype Filter =
    | AllDocs                                   // the bare collection
    | FieldIn(field: string, values: seq<string>)   // whereIn(field, values)
    | FieldEquals(field: string, value: Value)  // whereEqualTo(field, value)

  predicate Matches(d: Doc, filter: Filter) {
    match filter
    case AllDocs => true
    case FieldIn(f, vs) => f in d && d[f].Str? && d[f].s in vs
    case FieldEquals(f, v) => f in d && d[f] == v
  }

  function Select(coll: map<Uid, Doc>, filter: Filter): (r: map<Uid, Doc>)
    ensures r.Keys <= coll.Keys
    ensures forall id :: id in r ==> r[id] == coll[id] && Matches(coll[id], filter)
    ensures forall id :: id in coll && Matches(coll[id], filter) ==> id in r
  {
    map id | id in coll && Matches(coll[id], filter) :: coll[id]
  }

  /** The `orderBy` part: by document id when absent, else by a field. */
  datatype Ordering = ById | ByField(field: string, direction: Direction)

  datatype Query = Query(filter: Filter, ordering: Ordering, offset: int, limit: int)

  /** `s` lists every element of `keys` exactly once. */
  ghost predicate Enumerates(s: seq<Uid>, keys: set<Uid>) {
    (forall x :: x in s <==> x in keys)
    && (forall i, j :: 0 <= i < j < |s| ==> s[i] != s[j])
  }

  /** Some enumeration of a set: the witness that orders exist. */
  ghost function SomeEnumeration(keys: set<Uid>): (s: seq<Uid>)
    ensures Enumerates(s, keys)
    decreases |keys|
  {
    if keys == {} then []
    else
      var x :| x in keys;
      var rest := SomeEnumeration(keys - {x});
      assert forall i :: 0 <= i < |rest| ==> rest[i] != x;
      [x] + rest
  }

  /** An enumeration is as long as the set it enumerates. */
  lemma {:induction false} EnumerationSize(s: seq<Uid>, keys: set<Uid>)
    requires Enumerates(s, keys)
    ensures |s| == |keys|
  {
    if s != [] {
      assert s[0] in keys;
      assert forall i :: 0 < i < |s| ==> s[i] != s[0];
      forall x | x in s[1..] ensures x in keys - {s[0]} {
        var i :| 0 <= i < |s[1..]| && s[1..][i] == x;
        assert s[i + 1] == x;
      }
      forall x | x in keys - {s[0]} ensures x in s[1..] {
        var i :| 0 <= i < |s| && s[i] == x;
        assert i != 0;
        assert s[1..][i - 1] == x;
      }
      assert Enumerates(s[1..], keys - {s[0]});
      EnumerationSize(s[1..], keys - {s[0]});
    }
  }

  /** The matching documents an ordered query can return: `orderBy(field)`
      leaves out every document without that field, while ordering by id
      keeps them all. */
  function Sortable(m: map<Uid, Doc>, o: Ordering): (r: map<Uid, Doc>)
    ensures r.Keys <= m.Keys
    ensures forall id :: id in r ==> r[id] == m[id]
    ensures forall id :: id in m ==> (id in r <==> o.ById? || o.field in m[id])
    ensures o.ById? ==> r == m
  {
    if o.ById? then m else map id | id in m && o.field in m[id] :: m[id]
  }

  /** The order Firestore hands back the matching documents of a query in:
      which order depends on its indexes, but every document the ordering
      can return comes exactly once. */
  type Arrangement = f: (map<Uid, Doc>, Ordering) -> seq<Uid> | forall m: map<Uid, Doc>, o: Ordering :: Enumerates(f(m, o), Sortable(m, o).Keys)
    ghost witness (m: map<Uid, Doc>, o: Ordering) => SomeEnumeration(Sortable(m, o).Keys)

  /** A subset is no larger. */
  lemma {:induction false} SubsetCard<T>(a: set<T>, b: set<T>)
    requires a <= b
    ensures |a| <= |b|
    decreases |b|
  {
    if a != {} {
      var x :| x in a;
      SubsetCard(a - {x}, b - {x});
    }
  }

  /** `query.get().get().size()` of the unpaged query. */
  function Count(coll: map<Uid, Doc>, filter: Filter): (n: Result<nat>)
    ensures n.Ok? ==> n.value == |Select(coll, filter).Keys| && n.value <= |coll|
    ensures n.Err? <==> filter.FieldIn? && filter.values == []
  {
    if filter.FieldIn? && filter.values == [] then Err(Execution("an 'in' filter needs a non-empty list"))
    else
      SubsetCard(Select(coll, filter).Keys, coll.Keys);
      Ok(|Select(coll, filter).Keys|)
  }

  // ---------------------------------------------------------------------
  // The identity store

  /** A Firebase user record, stored under its uid. `password` stands for the
      stored credential. */
  datatype UserRecord = UserRecord(
    email: Option<string>, phoneNumber: Option<string>, displayName: Option<string>,
    photoUrl: Option<string>, password: Option<string>, emailVerified: bool,
    claims: map<string, string>, creationTimestamp: Timestamp)

  /** `new CreateRequest()` with its setters. */
  datatype CreateRequest = CreateRequest(
    email: Option<string>, password: Option<string>, displayName: Option<string>,
    phoneNumber: Option<string>, emailVerified: bool)

  /** A property of an `UpdateRequest`: left alone, or set (possibly to null,
      which removes it). */
  datatype Change<T> = Leave | Set(value: T)

  function Changed<T>(c: Change<T>, current: T): T {
    if c.Set? then c.value else current
  }

  /** `new UpdateRequest(uid)` with its setters. */
  datatype UpdateRequest = UpdateRequest(
    uid: Uid, email: Change<Option<string>>, emailVerified: Change<bool>,
    password: Change<Option<string>>, phoneNumber: Change<Option<string>>,
    displayName: Change<Option<string>>, photoUrl: Change<Option<string>>,
    claims: Change<map<string, string>>)

  function NoChange(uid: Uid): UpdateRequest {
    UpdateRequest(uid, Leave, Leave, Leave, Leave, Leave, Leave, Leave)
  }

  /** What `updateUser(request)` makes of a record. */
  function ApplyUpdate(rec: UserRecord, req: UpdateRequest): UserRecord {
    rec.(email := Changed(req.email, rec.email),
         emailVerified := Changed(req.emailVerified, rec.emailVerified),
         password := Changed(req.password, rec.password),
         phoneNumber := Changed(req.phoneNumber, rec.phoneNumber),
         displayName := Changed(req.displayName, rec.displayName),
         photoUrl := Changed(req.photoUrl, rec.photoUrl),
         claims := Changed(req.claims, rec.claims))
  }

  /** A request that sets nothing leaves the record as it is. */
  lemma ApplyNoChange(rec: UserRecord, uid: Uid)
    ensures ApplyUpdate(rec, NoChange(uid)) == rec
  {
  }

  /** The new record `createUser` makes: no claims yet. */
  function NewRecord(req: CreateRequest, now: Timestamp): UserRecord {
    UserRecord(req.email, req.phoneNumber, req.displayName, None, req.password,
               req.emailVerified, map[], now)
  }

  /** Firebase keeps e-mail addresses and phone numbers unique across users. */
  predicate EmailTaken(users: map<Uid, UserRecord>, email: Option<string>, except: Option<Uid>) {
    email.Some? && exists u :: u in users && Some(u) != except && users[u].email == email
  }

  predicate PhoneTaken(users: map<Uid, UserRecord>, phone: Option<string>, except: Option<Uid>) {
    phone.Some? && exists u :: u in users && Some(u) != except && users[u].phoneNumber == phone
  }

  const EMAIL_EXISTS := FirebaseAuth("The user with the provided email already exists (EMAIL_EXISTS).")
  const PHONE_NUMBER_EXISTS := FirebaseAuth("The user with the provided phone number already exists (PHONE_NUMBER_EXISTS).")

  /** Why `updateUser(req)` fails, if it does. */
  function UpdateConflict(users: map<Uid, UserRecord>, req: UpdateRequest): (e: Option<Error>)
    ensures e.Some? ==>
              (req.email.Set? && EmailTaken(users, req.email.value, Some(req.uid))) ||
              (req.phoneNumber.Set? && PhoneTaken(users, req.phoneNumber.value, Some(req.uid)))
  {
    if req.email.Set? && EmailTaken(users, req.email.value, Some(req.uid)) then Some(EMAIL_EXISTS)
    else if req.phoneNumber.Set? && PhoneTaken(users, req.phoneNumber.value, Some(req.uid)) then Some(PHONE_NUMBER_EXISTS)
    else None
  }

  /** `firebaseAuth.getUser(uid)`. */
  function GetUserIn(users: map<Uid, UserRecord>, uid: Option<Uid>): (r: Result<UserRecord>)
    ensures r.Ok? <==> uid.Some? && uid.value != "" && uid.value in users
    ensures r.Ok? ==> r.value == users[uid.value]
  {
    match uid
    case None => Err(IllegalArgument("uid must not be null or empty"))
    case Some(u) =>
      if u == "" then Err(IllegalArgument("uid must not be null or empty"))
      else if u !in users then Err(FirebaseAuth("No user record found for the provided user ID: " + u))
      else Ok(users[u])
  }

  /** A decoded ID token: whose it is and the claims it carries. */
  datatype FirebaseToken = FirebaseToken(uid: Uid, claims: map<string, string>)

  /** A stored object of the bucket. */
  datatype Blob = Blob(contentType: Option<string>, size: nat)

  /** The write requests issued to the backends, in order. */
  datatype Call =
    | CreateUserCall(create: CreateRequest)
    | SetClaimsCall(uid: Uid, claims: map<string, string>)
    | UpdateUserCall(update: UpdateRequest)
    | DeleteUserCall(uid: Uid)
    | SetDocCall(coll: CollectionName, id: Uid, data: Doc)
    | UpdateDocCall(coll: CollectionName, id: Uid, patch: map<string, Value>)
    | DeleteDocCall(coll: CollectionName, id: Uid)
    | CreateBlobCall(name: string)
    | DeleteBlobCall(name: string)

  /** Some string not among `keys`: backs the fresh ids the backends hand out. */
  lemma {:induction false} LongerThanAll(keys: set<string>) returns (n: nat)
    ensures forall k :: k in keys ==> |k| < n
    decreases |keys|
  {
    if keys == {} {
      n := 0;
    } else {
      var k :| k in keys;
      var m := LongerThanAll(keys - {k});
      n := if |k| < m then m else |k| + 1;
    }
  }

  function Repeat(c: char, n: nat): (s: string)
    ensures |s| == n
  {
    if n == 0 then [] else [c] + Repeat(c, n - 1)
  }

  lemma FreshIdExists(keys: set<string>)
    ensures exists u :: u !in keys && u != ""
  {
    var n := LongerThanAll(keys);
    var u := Repeat('a', n + 1);
    assert u !in keys;
  }

  /** The backends. The bucket name, the tokens Firebase would verify and
      the order Firestore returns query results in are fixed. */
  class Backend {
    var users: map<Uid, UserRecord>
    var docs: Collections
    var blobs: map<string, Blob>
    const tokens: map<string, FirebaseToken>
    const bucket: string
    /** The order of a query's matching documents (Firestore's index order). */
    const arrange: Arrangement
    ghost var calls: seq<Call>

    constructor (bucket: string, tokens: map<string, FirebaseToken>, arrange: Arrangement)
      ensures this.bucket == bucket && this.tokens == tokens && this.arrange == arrange
      ensures users == map[] && docs == EmptyCollections() && blobs == map[] && calls == []
    {
      this.bucket := bucket;
      this.tokens := tokens;
      this.arrange := arrange;
      users := map[];
      docs := EmptyCollections();
      blobs := map[];
      calls := [];
    }

    function GetUser(uid: Option<Uid>): Result<UserRecord>
      reads this
    {
      GetUserIn(users, uid)
    }

    function Coll(c: CollectionName): map<Uid, Doc>
      reads this
    {
      docs.Get(c)
    }

    function Snapshot(c: CollectionName, id: Uid): Option<Doc>
      reads this
    {
      SnapshotOf(docs.Get(c), id)
    }

    /** `firebaseAuth.verifyIdToken(token)`. */
    function VerifyIdToken(token: string): (r: Result<FirebaseToken>)
      reads this
      ensures r.Ok? <==> token in tokens
    {
      if token in tokens then Ok(tokens[token])
      else Err(FirebaseAuth("Failed to verify the ID token"))
    }

    /** The matching documents of a query in Firestore's order: each one
        the ordering can return exactly once. Ordered by id, that is every
        matching document, as many as `Count` reports. */
    function Ordered(c: CollectionName, filter: Filter, ordering: Ordering): (s: seq<Uid>)
      reads this
      ensures Enumerates(s, Sortable(Select(Coll(c), filter), ordering).Keys)
      ensures |s| == |Sortable(Select(Coll(c), filter), ordering).Keys|
      ensures forall id :: id in s ==> id in Select(Coll(c), filter)
      ensures ordering.ById? ==> Enumerates(s, Select(Coll(c), filter).Keys) && |s| == |Select(Coll(c), filter).Keys|
    {
      var sel := Select(Coll(c), filter);
      EnumerationSize(arrange(sel, ordering), Sortable(sel, ordering).Keys);
      arrange(sel, ordering)
    }

    /** `query.get().get().getDocuments()`: the ids of one page of results.
        Firestore refuses a negative offset and an empty 'in' list. */
    function RunQuery(c: CollectionName, q: Query): (r: Result<seq<Uid>>)
      reads this
      ensures r.Ok? <==> q.offset >= 0 && q.limit >= 0 && !(q.filter.FieldIn? && q.filter.values == [])
      ensures r.Ok? ==> r.value == Window(Ordered(c, q.filter, q.ordering), q.offset, q.limit)
      ensures r.Ok? ==> forall id :: id in r.value ==> id in Coll(c) && Matches(Coll(c)[id], q.filter)
    {
      if q.filter.FieldIn? && q.filter.values == [] then Err(Execution("an 'in' filter needs a non-empty list"))
      else if q.offset < 0 then Err(Execution("offset must be non-negative"))
      else if q.limit < 0 then Err(Execution("limit must be non-negative"))
      else Ok(Window(Ordered(c, q.filter, q.ordering), q.offset, q.limit))
    }

    /** `firebaseAuth.createUser(request)`: a fresh uid, or a conflict. */
    method CreateUser(req: CreateRequest, now: Timestamp) returns (r: Result<Uid>)
      modifies this
      ensures calls == old(calls) + [CreateUserCall(req)]
      ensures docs == old(docs) && blobs == old(blobs)
      ensures r.Err? <==> EmailTaken(old(users), req.email, None) || PhoneTaken(old(users), req.phoneNumber, None)
      ensures r.Err? ==> users == old(users)
      ensures r.Ok? ==> r.value !in old(users) && r.value != ""
                        && users == old(users)[r.value := NewRecord(req, now)]
    {
      calls := calls + [CreateUserCall(req)];
      if EmailTaken(users, req.email, None) {
        return Err(EMAIL_EXISTS);
      }
      if PhoneTaken(users, req.phoneNumber, None) {
        return Err(PHONE_NUMBER_EXISTS);
      }
      FreshIdExists(users.Keys);
      var u :| u !in users && u != "";
      users := users[u := NewRecord(req, now)];
      r := Ok(u);
    }

    /** `firebaseAuth.setCustomUserClaims(uid, claims)`, on a user that exists. */
    method SetCustomUserClaims(uid: Uid, claims: map<string, string>)
      requires uid in users
      modifies this
      ensures users == old(users)[uid := old(users)[uid].(claims := claims)]
      ensures docs == old(docs) && blobs == old(blobs)
      ensures calls == old(calls) + [SetClaimsCall(uid, claims)]
    {
      users := users[uid := users[uid].(claims := claims)];
      calls := calls + [SetClaimsCall(uid, claims)];
    }

    /** `firebaseAuth.updateUser(request)`, on a user that exists. */
    method UpdateUser(req: UpdateRequest) returns (r: Outcome)
      requires req.uid in users
      modifies this
      ensures calls == old(calls) + [UpdateUserCall(req)]
      ensures docs == old(docs) && blobs == old(blobs)
      ensures UpdateConflict(old(users), req).Some? ==> r == Fail(UpdateConflict(old(users), req).value) && users == old(users)
      ensures UpdateConflict(old(users), req).None? ==> r == Pass && users == old(users)[req.uid := ApplyUpdate(old(users)[req.uid], req)]
    {
      calls := calls + [UpdateUserCall(req)];
      var conflict := UpdateConflict(users, req);
      if conflict.Some? {
        return Fail(conflict.value);
      }
      users := users[req.uid := ApplyUpdate(users[req.uid], req)];
      r := Pass;
    }

    /** `firebaseAuth.deleteUser(uid)`. */
    method DeleteUser(uid: Uid) returns (r: Outcome)
      modifies this
      ensures calls == old(calls) + [DeleteUserCall(uid)]
      ensures docs == old(docs) && blobs == old(blobs)
      ensures r.Pass? <==> uid in old(users)
      ensures users == old(users) - {uid}
    {
      calls := calls + [DeleteUserCall(uid)];
      if uid !in users {
        return Fail(FirebaseAuth("No user record found for the provided user ID: " + uid));
      }
      users := users - {uid};
      r := Pass;
    }

    /** `collection.document(id).set(data)`: the document is replaced. */
    method SetDocument(c: CollectionName, id: Uid, data: Doc)
      modifies this
      ensures docs == old(docs).With(c, old(docs).Get(c)[id := data])
      ensures users == old(users) && blobs == old(blobs)
      ensures calls == old(calls) + [SetDocCall(c, id, data)]
    {
      docs := docs.With(c, docs.Get(c)[id := data]);
      calls := calls + [SetDocCall(c, id, data)];
    }

    /** `collection.document().set(data)`: a new document under a fresh id. */
    method AddDocument(c: CollectionName, data: Doc) returns (id: Uid)
      modifies this
      ensures id !in old(docs).Get(c) && id != ""
      ensures docs == old(docs).With(c, old(docs).Get(c)[id := data])
      ensures users == old(users) && blobs == old(blobs)
      ensures calls == old(calls) + [SetDocCall(c, id, data)]
    {
      FreshIdExists(docs.Get(c).Keys);
      id :| id !in docs.Get(c) && id != "";
      SetDocument(c, id, data);
    }

    /** `collection.document(id).update(patch)`. */
    method UpdateDocument(c: CollectionName, id: Uid, patch: map<string, Value>)
      modifies this
      ensures docs == old(docs).With(c, UpdateIn(old(docs).Get(c), id, patch))
      ensures users == old(users) && blobs == old(blobs)
      ensures calls == old(calls) + [UpdateDocCall(c, id, patch)]
    {
      docs := docs.With(c, UpdateIn(docs.Get(c), id, patch));
      calls := calls + [UpdateDocCall(c, id, patch)];
    }

    /** `collection.document(id).delete()`: nothing happens to a missing document. */
    method DeleteDocument(c: CollectionName, id: Uid)
      modifies this
      ensures docs == old(docs).With(c, old(docs).Get(c) - {id})
      ensures users == old(users) && blobs == old(blobs)
      ensures calls == old(calls) + [DeleteDocCall(c, id)]
    {
      docs := docs.With(c, docs.Get(c) - {id});
      calls := calls + [DeleteDocCall(c, id)];
    }

    /** `bucket.create(name, bytes, contentType)`: stored, replacing any blob of that name. */
    method CreateBlob(name: string, blob: Blob)
      modifies this
      ensures blobs == old(blobs)[name := blob]
      ensures users == old(users) && docs == old(docs)
      ensures calls == old(calls) + [CreateBlobCall(name)]
    {
      blobs := blobs[name := blob];
      calls := calls + [CreateBlobCall(name)];
    }

    /** `blob.delete()` on a blob that `bucket.get(name)` returned. */
    method DeleteBlob(name: string)
      requires name in blobs
      modifies this
      ensures blobs == old(blobs) - {name}
      ensures users == old(users) && docs == old(docs)
      ensures calls == old(calls) + [DeleteBlobCall(name)]
    {
      blobs := blobs - {name};
      calls := calls + [DeleteBlobCall(name)];
    }
  }

  // ---------------------------------------------------------------------
  // Shared by the user repositories

  /** `claims.isEmpty() || !claims.get("role").toString().equals(role)`,
      which decides whether a record is of the repository's kind. A
      non-empty claims map without a "role" entry makes `get` return null and
      `toString` throw. */
  function HasRoleClaim(claims: map<string, string>, role: string): (r: Result<bool>)
    ensures r == Ok(true) <==> "role" in claims && claims["role"] == role
    ensures r.Err? <==> claims != map[] && "role" !in claims
    ensures r.Err? ==> r.error == NullPointer
  {
    if claims == map[] then Ok(false)
    else if "role" !in claims then Err(NullPointer)
    else Ok(claims["role"] == role)
  }

  /** The calls an update routine issues: the identity update, then the
      document patch unless it is empty. */
  ghost predicate IdentityThenPatch(before: seq<Call>, after: seq<Call>, uid: Uid, c: CollectionName, patch: map<string, Value>) {
    |after| == |before| + (if patch == map[] then 1 else 2)
    && after[..|before|] == before
    && after[|before|].UpdateUserCall? && after[|before|].update.uid == uid
    && (patch != map[] ==> after[|before| + 1] == UpdateDocCall(c, uid, patch))
  }

  /** `NotFoundException.create(resource, id)`. */
  function EntityNotFound(resource: string, id: Option<Uid>): (e: Error)
    ensures e.NotFound? && |e.message| > |resource| && e.message[..|resource|] == resource
  {
    NotFound(resource + " identified by " + JavaStr(id) + " not found.")
  }

  /** `claims.get(key).toString()`: null throws. */
  function ClaimString(claims: map<string, string>, key: string): (r: Result<string>)
    ensures r.Ok? <==> key in claims
    ensures r.Ok? ==> r.value == claims[key]
  {
    if key in claims then Ok(claims[key]) else Err(NullPointer)
  }

  /** `copy.put(key, value)` on a claims map copied from the record; putting
      null removes the entry. */
  function PutClaim(claims: map<string, string>, key: string, value: Option<string>): (r: map<string, string>)
    ensures value.Some? ==> r == claims[key := value.value]
    ensures value.None? ==> r == claims - {key}
  {
    if value.Some? then claims[key := value.value] else claims - {key}
  }
}
