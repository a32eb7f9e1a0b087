# better-city user service, modelled in Dafny

The user service of the "better city" platform stores six kinds of users:
residents, services, analysts, employees, moderators and the departments of
a service. Each user has an identity record in Firebase Authentication
(email, phone, display name, photo, custom claims `role` and `status`).
Every kind except moderators also has a document in a Firestore collection.
Repositories read and write both stores. Services add the guards
"already deleted" and "not found", plus the non-null merge of an update
request. Controllers add ownership decisions on top: a service manages only
its own departments and employees. An authorization aspect admits a request
by the role and status claims of its bearer token. A handler maps exceptions
to HTTP statuses.

The model is built like this:

- `Firebase.Backend` is a class. Its fields are the identity store, the
  Firestore collections, the blob store and the issued tokens. Repository
  and service operations are methods that `modify` it. Each method's
  `ensures` gives the whole new state as a function of the old one.
- Entities are datatypes. Every nullable Java field is an `Option`.
- A Java exception is an `Err` of a `Result` (or a `Fail` of an
  `Outcome`), carrying the exception kind and message. A
  `NullPointerException` that the code provokes is modelled as
  `Err(NullPointer)`.
- A page is read in a loop (`CollectPage`), proved against the
  specification `Paging.Collect`. `Collect` keeps the entities read before
  an exception: a `continue` is a `Skip`, an exception an `Abort`.
- Pagination arithmetic follows `Pageable`, including the 32-bit overflow
  of `getOffset`.

Where the code and its documentation disagree, the model follows the code:
- `findAll` keeps the items gathered before an exception, together with the
  0/0 totals of its `catch`.
- A resident read from an identity record without a document throws
  (`UserStatus.valueOf(null)`); it is not reported as not found.
- `ServiceController.getServices` and `getServicesCount` call methods that
  `ServiceService` does not define. `ServiceController.GetServices` goes to
  the repository's `findAll` directly, and `ServiceRepository.CountActive`
  models `count()`.
- `ServiceController.getService` reports a hidden service with the message
  "Resident not found", as written.
- The entity classes declare fewer properties than the repositories use.
  `entity/User.java` declares no phone number or creation date, and
  `entity/Service.java` no address, yet the repositories set and read them
  (`ResidentRepository.java:177`, `234`; `ServiceRepository.java:145`,
  `194`, `253`). The model follows the repositories: residents, services,
  analysts and employees carry a phone number and a creation date, services
  also an address. Moderators carry neither, as `ModeratorRepository` never
  sets them.
- The department and employee page queries ignore `sortBy` and order by
  document id, as the Firestore query the code builds has no `orderBy`.

## Model

Paths are relative to the repository root.

| member | source | states |
|---|---|---|
| Common.StatusValueOf | src/main/java/dev/mikita/userservice/entity/UserStatus.java:6-30 | `UserStatus.valueOf`: a result names the status it parses; a null name throws NullPointerException |
| Common.StatusRoundTrip | src/main/java/dev/mikita/userservice/entity/UserStatus.java:10-30 | parsing the name `toString` writes gives the status back |
| Common.RoleValueOf | src/main/java/dev/mikita/userservice/entity/UserRole.java:6-35 | `UserRole.valueOf`: a result names the role it parses |
| Common.RoleRoundTrip | src/main/java/dev/mikita/userservice/entity/UserRole.java:10-35 | parsing a role's name gives the role back |
| Common.Pick | src/main/java/dev/mikita/userservice/service/ResidentService.java:74-76 | the ModelMapper `isNotNull` condition: a non-null source property wins, a null one keeps the destination |
| Common.JavaEquals | src/main/java/dev/mikita/userservice/service/EmployeeService.java:68-78 | `a.equals(b)`: throws exactly when the receiver is null, otherwise true iff equal |
| Entities.MergeResident | src/main/java/dev/mikita/userservice/service/ResidentService.java:69-78 | each of the ten fields of the merge (uid, email, password, photo, phone, role, status, creation date, names) is the update's value when non-null, else the stored resident's |
| Entities.MergeAnalyst | src/main/java/dev/mikita/userservice/service/AnalystService.java:35-43 | each of the ten fields of the merge is the update's value when non-null, else the stored analyst's |
| Entities.MergeDepartment | src/main/java/dev/mikita/userservice/service/DepartmentService.java:38-48 | each of the eight fields of the merge is the update's value when non-null, else the stored department's; a non-null categories list replaces the stored one |
| Entities.MergeLaws | src/main/java/dev/mikita/userservice/service/DepartmentService.java:40-47 | merging an all-null update is the identity; merging the same update twice equals merging it once |
| Paging.Wrap32 | src/main/java/dev/mikita/userservice/util/Pageable.java:39-41 | Java `int` wrap-around: a value in range is kept, any value is congruent to its wrap modulo 2^32 |
| Paging.DefaultPageable | src/main/java/dev/mikita/userservice/util/Pageable.java:13-18 | page 0, size 20, no sort field, DESCENDING |
| Paging.NewPageable | src/main/java/dev/mikita/userservice/util/Pageable.java:20-25 | page ≥ 0 and size ≥ 1; in-range arguments are stored unchanged, negative page gives 0, size below 1 gives 1 |
| Paging.ShortConstructorsDelegate | src/main/java/dev/mikita/userservice/util/Pageable.java:27-37 | the 2- and 3-argument constructors equal the 4-argument one with sortBy null and DESCENDING |
| Paging.Offset | src/main/java/dev/mikita/userservice/util/Pageable.java:39-41 | when page × size fits in an int, the offset is that product |
| Paging.OffsetIsPageTimesSize | src/main/java/dev/mikita/userservice/util/Pageable.java:39-41 | without overflow the offset is non-negative and the next page starts exactly `size` later, so pages never overlap |
| Paging.OffsetOverflows | src/main/java/dev/mikita/userservice/util/Pageable.java:39-41 | page 2^30 with size 2 gives offset −2^31 |
| Paging.CeilDiv | src/main/java/dev/mikita/userservice/repository/ServiceRepository.java:83 | `Math.ceil(total / size)`: enough pages to hold every item, and one fewer would not be |
| Paging.CeilDivIsLeast | src/main/java/dev/mikita/userservice/repository/ServiceRepository.java:83 | any page count that holds every item is at least `CeilDiv` |
| Paging.Window | src/main/java/dev/mikita/userservice/repository/ServiceRepository.java:96-98 | `offset(o).limit(l)`: at most l items, all from the ordered list, the exact slice when in range, empty past the end |
| Paging.PagesCover | src/main/java/dev/mikita/userservice/repository/ServiceRepository.java:83-98 | reading pages 0 .. totalPages−1 returns every item once, in order |
| Paging.PagesPastEnd | src/main/java/dev/mikita/userservice/repository/ServiceRepository.java:83-98 | reading more pages than the items fill still returns every item once, in order |
| Paging.PagesFromPastEnd | src/main/java/dev/mikita/userservice/repository/ServiceRepository.java:83-98 | reading pages from any page up to a page count that covers the list returns the rest of the list from that page's offset, and nothing once the offset passes the end |
| Paging.PagesFrom | src/main/java/dev/mikita/userservice/repository/ServiceRepository.java:83-98 | reading the pages from page `from` on gives the suffix from offset from × size |
| Paging.CollectBounds | src/main/java/dev/mikita/userservice/repository/ServiceRepository.java:104-113 | the loop returns at most one entity per document, each read from one |
| Paging.CollectAllKept | src/main/java/dev/mikita/userservice/repository/ServiceRepository.java:104-113 | when no document is skipped or fails, the list is every entity in query order |
| Paging.CollectErrorFromFail | src/main/java/dev/mikita/userservice/repository/ServiceRepository.java:104-118 | an exception reported by the loop was raised by one of its documents |
| Paging.CollectSnoc | src/main/java/dev/mikita/userservice/repository/ServiceRepository.java:104-113 | one more loop iteration extends the result by that document's outcome (the loop invariant) |
| Paging.CollectStopsAtFail | src/main/java/dev/mikita/userservice/repository/ServiceRepository.java:104-118 | the first exception ends the loop; later documents are not read |
| Paging.CollectNext | src/main/java/dev/mikita/userservice/repository/ServiceRepository.java:104-118 | one iteration of the loop appends a kept entity, leaves the list as it is for a skipped document, and on an exception ends the whole loop with the entities read so far |
| PagedQueries.StatusNames | src/main/java/dev/mikita/userservice/repository/ServiceRepository.java:75-77 | the status filter lists each status's `toString`, in order |
| PagedQueries.ItemsQuery | src/main/java/dev/mikita/userservice/repository/ServiceRepository.java:86-99 | fails iff there is neither a status filter nor a sort field; a status filter orders by "status", otherwise by sortBy; offset and limit come from the pageable |
| PagedQueries.ListingFacts | src/main/java/dev/mikita/userservice/repository/ServiceRepository.java:115-118 | the page number is always the requested one; totals are real only when nothing failed, and 0/0 otherwise; items never exceed the documents read |
| PagedQueries.PageIds | src/main/java/dev/mikita/userservice/repository/ServiceRepository.java:101-102 | a page holds at most `size` ids, each of a document matching the filter |
| PagedQueries.ListingPagesCover | src/main/java/dev/mikita/userservice/repository/ServiceRepository.java:82-98 | the ordered query returns each matching document that holds the sort field exactly once, and pages 0 .. totalPages-1 together return exactly those, in order; the count is never smaller, and equal iff every matching document holds the sort field |
| PagedQueries.SortableCount | src/main/java/dev/mikita/userservice/repository/ServiceRepository.java:82-98 | ordering by a field keeps no more documents than the filter matched, and keeps all of them exactly when every one holds that field |
| PagedQueries.StatusListingIsExact | src/main/java/dev/mikita/userservice/repository/ServiceRepository.java:86-90 | a status-filtered listing is ordered by "status", which every matching document holds, so nothing is dropped from it |
| Firebase.PatchMakesAgree | src/main/java/dev/mikita/userservice/repository/ServiceRepository.java:183-216 | after writing the patch, every wanted field agrees with the document and no other field changes |
| Firebase.DiffIdempotent | src/main/java/dev/mikita/userservice/repository/ServiceRepository.java:183-216 | a second update with the same values writes nothing |
| Firebase.DiffEmptyIff | src/main/java/dev/mikita/userservice/repository/ServiceRepository.java:214-216 | the patch is empty, so no document write happens, iff every wanted field already agrees |
| Firebase.UpdateInEmpty | src/main/java/dev/mikita/userservice/repository/ServiceRepository.java:214-216 | backend helper: an empty patch leaves the collection as it is, so skipping the write changes nothing |
| Firebase.Ordered | src/main/java/dev/mikita/userservice/repository/EmployeeRepository.java:45 | backend helper: a query returns each matching document its ordering can return exactly once, in Firestore's order; ordered by id, every matching document, as many as the count reports |
| Firebase.Sortable | src/main/java/dev/mikita/userservice/repository/ServiceRepository.java:95 | backend helper: `orderBy(field)` can return exactly the matching documents that hold the field; ordering by id keeps all |
| Firebase.EntityNotFound | src/main/java/dev/mikita/userservice/repository/EmployeeRepository.java:37 | `NotFoundException.create(resource, id)`: a NotFound whose message starts with the resource name |
| Firebase.EnumerationSize | src/main/java/dev/mikita/userservice/repository/ServiceRepository.java:82 | backend helper: a listing of each document once is as long as the set of documents |
| ServiceRepository.Find | src/main/java/dev/mikita/userservice/repository/ServiceRepository.java:57-66 | a service is returned only for a uid whose role claim is "SERVICE", read from its record and document; empty claims or another role is NotFound; a missing user propagates |
| ServiceRepository.MakeService | src/main/java/dev/mikita/userservice/repository/ServiceRepository.java:240-257 | builds the service iff the document's "status" names a status, each property from where `make` reads it; otherwise the `valueOf` exception |
| ServiceRepository.PageSteps | src/main/java/dev/mikita/userservice/repository/ServiceRepository.java:104-113 | one outcome per listed document, in order |
| ServiceRepository.PageStepIsFind | src/main/java/dev/mikita/userservice/repository/ServiceRepository.java:104-113 | a document is kept iff `find` would return it, skipped iff `find` reports not found, and fails with `find`'s exception |
| ServiceRepository.CollectPage | src/main/java/dev/mikita/userservice/repository/ServiceRepository.java:104-113 | the loop's services and exception equal `Collect` over the page's documents |
| ServiceRepository.FindAll | src/main/java/dev/mikita/userservice/repository/ServiceRepository.java:68-119 | the listing of the count query and the items query, as `Listing` states it |
| ServiceRepository.FindAllItemsAreFound | src/main/java/dev/mikita/userservice/repository/ServiceRepository.java:104-113 | every listed service is what `find` returns for one of the page's ids, and has role SERVICE |
| ServiceRepository.Persist | src/main/java/dev/mikita/userservice/repository/ServiceRepository.java:127-150 | fails iff the email is taken; otherwise a fresh uid gets the record, claims {SERVICE, ACTIVE} and the document |
| ServiceRepository.PersistThenFind | src/main/java/dev/mikita/userservice/repository/ServiceRepository.java:127-150 | a persisted service is found again as ACTIVE with its name, email and photo |
| ServiceRepository.IdentityRequest | src/main/java/dev/mikita/userservice/repository/ServiceRepository.java:162-180 | display name and phone are set iff changed, password iff given, email and emailVerified iff the email changed; applying the request gives the updated record |
| ServiceRepository.DocumentPatch | src/main/java/dev/mikita/userservice/repository/ServiceRepository.java:183-200 | the patch holds exactly the fields among name, description, address and status that differ from the document |
| ServiceRepository.Update | src/main/java/dev/mikita/userservice/repository/ServiceRepository.java:159-219 | succeeds iff the user exists with a status claim and no email or phone conflict; then writes the record, the status claim and the patch, and returns the input |
| ServiceRepository.FoundWritesBackUnchanged | src/main/java/dev/mikita/userservice/repository/ServiceRepository.java:183-200 | writing back a service as found gives an empty patch |
| ServiceRepository.Delete | src/main/java/dev/mikita/userservice/repository/ServiceRepository.java:227-230 | removes the identity record, then the document; a missing user throws before the document is touched |
| ServiceRepository.CountActive | src/main/java/dev/mikita/userservice/repository/ServiceRepository.java:232-238 | the number of documents whose status is "ACTIVE", never more than the collection |
| ResidentRepository.Find | src/main/java/dev/mikita/userservice/repository/ResidentRepository.java:56-65 | a resident only for a role claim "RESIDENT", read from record and document; otherwise NotFound or the lookup's exception |
| ResidentRepository.MakeResident | src/main/java/dev/mikita/userservice/repository/ResidentRepository.java:226-241 | builds the resident iff the document's "status" names a status, each property from where `make` reads it; otherwise the `valueOf` exception |
| ResidentRepository.FindWithPhone | src/main/java/dev/mikita/userservice/repository/ResidentRepository.java:226-241 | `find` with the phone taken from the identity record (finding F5, corrected) |
| ResidentRepository.PageSteps | src/main/java/dev/mikita/userservice/repository/ResidentRepository.java:103-113 | one outcome per listed document, in order |
| ResidentRepository.PageStepIsFind | src/main/java/dev/mikita/userservice/repository/ResidentRepository.java:103-113 | kept iff `find` returns it; skipped iff `find` reports not found; an exception otherwise |
| ResidentRepository.CollectPage | src/main/java/dev/mikita/userservice/repository/ResidentRepository.java:103-113 | the loop equals `Collect` over the page |
| ResidentRepository.FindAll | src/main/java/dev/mikita/userservice/repository/ResidentRepository.java:67-118 | the listing of the count and items queries |
| ResidentRepository.FindAllItemsAreFound | src/main/java/dev/mikita/userservice/repository/ResidentRepository.java:103-113 | every listed resident is found for one of the page's ids |
| ResidentRepository.Persist | src/main/java/dev/mikita/userservice/repository/ResidentRepository.java:126-148 | fails iff the email is taken; otherwise a fresh uid with claims {RESIDENT, ACTIVE} and its document |
| ResidentRepository.PersistThenFind | src/main/java/dev/mikita/userservice/repository/ResidentRepository.java:126-148 | a persisted resident is found again as ACTIVE |
| ResidentRepository.IdentityRequest | src/main/java/dev/mikita/userservice/repository/ResidentRepository.java:161-178 | the display name "first last" is set iff changed; email, password and phone by the same rules as for services |
| ResidentRepository.DocumentPatch | src/main/java/dev/mikita/userservice/repository/ResidentRepository.java:183-194 | the patch holds exactly those of firstName, lastName and status that differ |
| ResidentRepository.Update | src/main/java/dev/mikita/userservice/repository/ResidentRepository.java:157-213 | succeeds iff the user exists with a status claim and no conflict; writes record, claims and patch |
| ResidentRepository.FoundHasEmptyPatch | src/main/java/dev/mikita/userservice/repository/ResidentRepository.java:183-194 | a resident as found has an empty document patch |
| ResidentRepository.Delete | src/main/java/dev/mikita/userservice/repository/ResidentRepository.java:221-224 | removes the record, then the document |
| AnalystRepository.Find | src/main/java/dev/mikita/userservice/repository/AnalystRepository.java:34-43 | an analyst only for a role claim "ANALYST" |
| AnalystRepository.MakeAnalyst | src/main/java/dev/mikita/userservice/repository/AnalystRepository.java:182-197 | builds the analyst iff the document's "status" names a status, each property from where `make` reads it; otherwise the `valueOf` exception |
| AnalystRepository.PageSteps | src/main/java/dev/mikita/userservice/repository/AnalystRepository.java:82-92 | one outcome per listed document |
| AnalystRepository.PageStepIsFind | src/main/java/dev/mikita/userservice/repository/AnalystRepository.java:82-92 | kept iff found, skipped iff not found |
| AnalystRepository.CollectPage | src/main/java/dev/mikita/userservice/repository/AnalystRepository.java:82-92 | the loop equals `Collect` over the page |
| AnalystRepository.FindAll | src/main/java/dev/mikita/userservice/repository/AnalystRepository.java:46-97 | the listing of the count and items queries |
| AnalystRepository.FindAllItemsAreFound | src/main/java/dev/mikita/userservice/repository/AnalystRepository.java:82-92 | every listed analyst is found for one of the page's ids |
| AnalystRepository.Persist | src/main/java/dev/mikita/userservice/repository/AnalystRepository.java:99-121 | fails iff the email is taken; otherwise a fresh uid with claims {ANALYST, ACTIVE} |
| AnalystRepository.PersistThenFind | src/main/java/dev/mikita/userservice/repository/AnalystRepository.java:99-121 | a persisted analyst is found again as ACTIVE |
| AnalystRepository.IdentityRequest | src/main/java/dev/mikita/userservice/repository/AnalystRepository.java:127-140 | never sets a phone number; the other fields by the usual rules |
| AnalystRepository.DocumentPatch | src/main/java/dev/mikita/userservice/repository/AnalystRepository.java:145-156 | exactly the differing fields among name, description and status |
| AnalystRepository.Update | src/main/java/dev/mikita/userservice/repository/AnalystRepository.java:123-175 | succeeds iff the user exists with a status claim and the email is free; writes record, claims and patch |
| AnalystRepository.FoundWritesBackUnchanged | src/main/java/dev/mikita/userservice/repository/AnalystRepository.java:145-156 | an analyst as found has an empty document patch |
| AnalystRepository.Delete | src/main/java/dev/mikita/userservice/repository/AnalystRepository.java:177-180 | removes the record, then the document |
| EmployeeRepository.NewClaims | src/main/java/dev/mikita/userservice/repository/EmployeeRepository.java:98-104 | claims role EMPLOYEE, status ACTIVE, and serviceUid and departmentUid exactly when given |
| EmployeeRepository.Find | src/main/java/dev/mikita/userservice/repository/EmployeeRepository.java:32-41 | an employee only for a role claim "EMPLOYEE"; status from the claims |
| EmployeeRepository.MakeEmployee | src/main/java/dev/mikita/userservice/repository/EmployeeRepository.java:190-208 | builds the employee iff the record's "status" claim names a status, each property from where `make` reads it; otherwise the `valueOf` exception |
| EmployeeRepository.MemberSteps | src/main/java/dev/mikita/userservice/repository/EmployeeRepository.java:43-54 | one outcome per document of the department |
| EmployeeRepository.MemberStep | src/main/java/dev/mikita/userservice/repository/EmployeeRepository.java:45-52 | the `forEach` lambda for one document never skips: it keeps the employee or throws |
| EmployeeRepository.FindAllByDepartmentUid | src/main/java/dev/mikita/userservice/repository/EmployeeRepository.java:43-54 | the loop over the department query, with no role check, or the first exception (a FirebaseAuthException rethrown as RuntimeException); on success exactly one employee per document whose departmentUid is that uid, read under its own uid |
| EmployeeRepository.CollectMembers | src/main/java/dev/mikita/userservice/repository/EmployeeRepository.java:45-52 | the `forEach` loop equals `Collect` of one step per document: it stops at the first exception |
| EmployeeRepository.DepartmentMembers | src/main/java/dev/mikita/userservice/repository/EmployeeRepository.java:43-54 | every listed employee has that departmentUid and is stored under a matching document; with no exception each matching document gives exactly one employee, with distinct uids, as many as the documents |
| EmployeeRepository.ListedInDepartment | src/main/java/dev/mikita/userservice/repository/EmployeeRepository.java:43-54 | every employee the listing keeps has the requested departmentUid and belongs to a matching document |
| EmployeeRepository.ListingComplete | src/main/java/dev/mikita/userservice/repository/EmployeeRepository.java:43-54 | with no exception, one employee per matching document, each under its own uid, no two alike |
| EmployeeRepository.MemberOfDepartment | src/main/java/dev/mikita/userservice/repository/EmployeeRepository.java:45-52 | one kept document gives the employee stored under its id, in the requested department |
| EmployeeRepository.KeptWhenNoError | src/main/java/dev/mikita/userservice/repository/EmployeeRepository.java:48-52 | a department listing that ends without an exception kept every document |
| EmployeeRepository.PageSteps | src/main/java/dev/mikita/userservice/repository/EmployeeRepository.java:71-82 | one outcome per listed document |
| EmployeeRepository.PageStepIsFind | src/main/java/dev/mikita/userservice/repository/EmployeeRepository.java:71-82 | kept iff found, skipped iff not found |
| EmployeeRepository.CollectPage | src/main/java/dev/mikita/userservice/repository/EmployeeRepository.java:71-82 | the loop equals `Collect` over the page |
| EmployeeRepository.FindAllByServiceUid | src/main/java/dev/mikita/userservice/repository/EmployeeRepository.java:56-87 | the listing of the documents whose serviceUid equals the argument, unordered, 0/0 on an exception |
| EmployeeRepository.ServicePageItems | src/main/java/dev/mikita/userservice/repository/EmployeeRepository.java:71-82 | every listed employee has role EMPLOYEE and the requested serviceUid |
| EmployeeRepository.Persist | src/main/java/dev/mikita/userservice/repository/EmployeeRepository.java:89-115 | fails iff the email or the phone is taken; otherwise record, claims and document under a fresh uid |
| EmployeeRepository.PersistThenFind | src/main/java/dev/mikita/userservice/repository/EmployeeRepository.java:89-115 | a persisted employee is found again as ACTIVE in its service and department |
| EmployeeRepository.UpdatedClaims | src/main/java/dev/mikita/userservice/repository/EmployeeRepository.java:157-165 | status and departmentUid are replaced, every other claim kept |
| EmployeeRepository.IdentityRequest | src/main/java/dev/mikita/userservice/repository/EmployeeRepository.java:122-139 | display name, email, password and phone by the usual rules |
| EmployeeRepository.DocumentPatch | src/main/java/dev/mikita/userservice/repository/EmployeeRepository.java:142-154 | exactly the differing fields among firstName, lastName and departmentUid; serviceUid is never written |
| EmployeeRepository.Update | src/main/java/dev/mikita/userservice/repository/EmployeeRepository.java:117-177 | succeeds iff the user exists with a status and no conflict; writes record, claims and patch |
| EmployeeRepository.FoundHasEmptyPatch | src/main/java/dev/mikita/userservice/repository/EmployeeRepository.java:142-154 | an employee as found has an empty document patch |
| EmployeeRepository.Delete | src/main/java/dev/mikita/userservice/repository/EmployeeRepository.java:185-188 | removes the record, then the document |
| DepartmentRepository.DocumentRef | src/main/java/dev/mikita/userservice/repository/DepartmentRepository.java:49 | a document reference needs a non-null, non-empty id |
| DepartmentRepository.Categories | src/main/java/dev/mikita/userservice/repository/DepartmentRepository.java:111 | the categories field is read iff it is a list of longs or absent |
| DepartmentRepository.SnapshotToEntity | src/main/java/dev/mikita/userservice/repository/DepartmentRepository.java:99-114 | succeeds iff the creation date and categories can be read; the uid comes from the document id |
| DepartmentRepository.EntityToMap | src/main/java/dev/mikita/userservice/repository/DepartmentRepository.java:116-128 | fails iff the creation date is null; the serviceUid field holds the entity's |
| DepartmentRepository.EntityRoundTrip | src/main/java/dev/mikita/userservice/repository/DepartmentRepository.java:99-128 | reading back a stored department gives it back, with the document id as uid |
| DepartmentRepository.Find | src/main/java/dev/mikita/userservice/repository/DepartmentRepository.java:48-52 | a missing document is NotFound("Department not found"); a present one is its snapshot |
| DepartmentRepository.Exists | src/main/java/dev/mikita/userservice/repository/DepartmentRepository.java:95-97 | true iff a document is present |
| DepartmentRepository.PageSteps | src/main/java/dev/mikita/userservice/repository/DepartmentRepository.java:42-43 | one outcome per listed document |
| DepartmentRepository.CollectPage | src/main/java/dev/mikita/userservice/repository/DepartmentRepository.java:42-43 | the loop equals `Collect` over the page |
| DepartmentRepository.FindByServiceUid | src/main/java/dev/mikita/userservice/repository/DepartmentRepository.java:27-46 | the departments of the service with totalPages = ⌈total/size⌉; with no catch, every exception propagates |
| DepartmentRepository.PageItemsBelong | src/main/java/dev/mikita/userservice/repository/DepartmentRepository.java:27-46 | at most `size` departments, each with the requested serviceUid and a document in the collection |
| DepartmentRepository.Persist | src/main/java/dev/mikita/userservice/repository/DepartmentRepository.java:54-56 | writes under a fresh store-generated id; fails iff there is no creation date |
| DepartmentRepository.PersistThenFind | src/main/java/dev/mikita/userservice/repository/DepartmentRepository.java:54-56 | a persisted department is found again under its new id |
| DepartmentRepository.DocumentPatch | src/main/java/dev/mikita/userservice/repository/DepartmentRepository.java:62-84 | exactly the differing fields among name, description, address, phoneNumber and categories |
| DepartmentRepository.Update | src/main/java/dev/mikita/userservice/repository/DepartmentRepository.java:58-89 | succeeds iff the id is usable; writes the patch only, returns the input |
| DepartmentRepository.UpdateKeepsOtherFields | src/main/java/dev/mikita/userservice/repository/DepartmentRepository.java:62-89 | serviceUid, creationDate and every other unwanted field are never patched |
| DepartmentRepository.Delete | src/main/java/dev/mikita/userservice/repository/DepartmentRepository.java:91-93 | removes only the document |
| ModeratorRepository.ReplaceModerator | src/main/java/dev/mikita/userservice/repository/ModeratorRepository.java:63 | stripping "ROLE_" maps both "ROLE_MODERATOR" and "MODERATOR" to "MODERATOR" |
| ModeratorRepository.UpperModerator | src/main/java/dev/mikita/userservice/repository/ModeratorRepository.java:63 | upper-casing "MODERATOR" leaves it unchanged |
| ModeratorRepository.RoleOfModeratorClaims | src/main/java/dev/mikita/userservice/repository/ModeratorRepository.java:60-64 | both spellings of the claim derive the role MODERATOR |
| ModeratorRepository.FindAs | src/main/java/dev/mikita/userservice/repository/ModeratorRepository.java:49-69 | a moderator for exactly the accepted role claim, read from the identity record alone |
| ModeratorRepository.MakeModerator | src/main/java/dev/mikita/userservice/repository/ModeratorRepository.java:56-68 | builds the moderator iff the status claim names a status and the role claim, stripped of "ROLE_" and upper-cased, names a role; a missing status claim throws NullPointerException |
| ModeratorRepository.Find | src/main/java/dev/mikita/userservice/repository/ModeratorRepository.java:49-69 | as written: found iff the role claim is "ROLE_MODERATOR" (finding F4) |
| ModeratorRepository.FindStored | src/main/java/dev/mikita/userservice/repository/ModeratorRepository.java:49-69 | corrected: found iff the role claim is "MODERATOR", as persist writes it |
| ModeratorRepository.Persist | src/main/java/dev/mikita/userservice/repository/ModeratorRepository.java:77-89 | fails iff the email is taken; otherwise an identity record only, claims {MODERATOR, ACTIVE} |
| ModeratorRepository.PersistedIsNotFound | src/main/java/dev/mikita/userservice/repository/ModeratorRepository.java:52 | a moderator just persisted is NotFound by `find` as written |
| ModeratorRepository.PersistThenFindStored | src/main/java/dev/mikita/userservice/repository/ModeratorRepository.java:77-89 | a persisted moderator is found by the corrected find, ACTIVE |
| ModeratorRepository.UpdateRequestOf | src/main/java/dev/mikita/userservice/repository/ModeratorRepository.java:102-108 | always sets email and emailVerified, the password iff given, nothing else |
| ModeratorRepository.UpdateWith | src/main/java/dev/mikita/userservice/repository/ModeratorRepository.java:98-120 | succeeds iff the user exists and the email is free; writes the request and the given claims |
| ModeratorRepository.Update | src/main/java/dev/mikita/userservice/repository/ModeratorRepository.java:98-120 | as written: the claims are reset to {MODERATOR, ACTIVE} |
| ModeratorRepository.StatusClaims | src/main/java/dev/mikita/userservice/repository/ModeratorRepository.java:113-117 | corrected claims: role MODERATOR and the entity's own status |
| ModeratorRepository.UpdateKeepingStatus | src/main/java/dev/mikita/userservice/repository/ModeratorRepository.java:98-120 | corrected update writing `StatusClaims` (finding F7) |
| ModeratorRepository.UpdateResetsStatus | src/main/java/dev/mikita/userservice/repository/ModeratorRepository.java:113-117 | after `update` as written, the moderator reads back ACTIVE whatever status was written |
| ModeratorRepository.UpdateKeepingStatusReadsBack | src/main/java/dev/mikita/userservice/repository/ModeratorRepository.java:113-117 | after the corrected update, the moderator reads back with the status written |
| ModeratorRepository.Delete | src/main/java/dev/mikita/userservice/repository/ModeratorRepository.java:128-130 | removes only the identity record |
| ResidentService.GetResident | src/main/java/dev/mikita/userservice/service/ResidentService.java:48-50 | as written: the repository's `find`, so every property comes from the record and document, and the phone number is always null |
| ResidentService.GetResidentWithPhone | src/main/java/dev/mikita/userservice/service/ResidentService.java:48-50 | corrected (F5): the same resident, with the record's phone number |
| ResidentService.GetResidents | src/main/java/dev/mikita/userservice/service/ResidentService.java:35-37 | the repository's listing, for the requested page |
| ResidentService.CreateResident | src/main/java/dev/mikita/userservice/service/ResidentService.java:58-60 | persist, unchanged: fails iff the email is taken |
| ResidentService.UpdateResident | src/main/java/dev/mikita/userservice/service/ResidentService.java:69-78 | as written: an error of `find` is thrown with nothing written; otherwise the non-null merge onto the resident `find` read is written back, so the record's phone becomes the request's, a null one erasing it |
| ResidentService.UpdateResidentReading | src/main/java/dev/mikita/userservice/service/ResidentService.java:69-78 | the update for either read: nothing written on an error, otherwise exactly the merge written back |
| ResidentService.UpdateResidentKeepingPhone | src/main/java/dev/mikita/userservice/service/ResidentService.java:69-78 | corrected (F5): a null phone in the request keeps the stored one |
| ResidentService.UpdateResidentStatus | src/main/java/dev/mikita/userservice/service/ResidentService.java:80-85 | as written: exactly the given status is written onto the resident `find` read, and the stored phone number is erased |
| ResidentService.UpdateResidentStatusReading | src/main/java/dev/mikita/userservice/service/ResidentService.java:80-85 | the status write for either read |
| ResidentService.UpdateResidentStatusKeepingPhone | src/main/java/dev/mikita/userservice/service/ResidentService.java:80-85 | corrected (F5): the same write, keeping the phone number |
| ResidentService.DeleteResident | src/main/java/dev/mikita/userservice/service/ResidentService.java:95-104 | as written: an already DELETED resident throws and nothing is written; otherwise status DELETED is written once, and the stored phone number is erased |
| ResidentService.DeleteResidentReading | src/main/java/dev/mikita/userservice/service/ResidentService.java:95-104 | the soft delete for either read |
| ResidentService.DeleteResidentKeepingPhone | src/main/java/dev/mikita/userservice/service/ResidentService.java:95-104 | corrected (F5): the same soft delete, keeping the phone number |
| ResidentService.StatusChangeReadsBack | src/main/java/dev/mikita/userservice/service/ResidentService.java:80-85 | for the read as written and the corrected one alike: the write-back succeeds iff the record has a status claim, and the resident then reads back the same way with the new status and otherwise unchanged |
| ResidentService.StatusChangeErasesPhone | src/main/java/dev/mikita/userservice/service/ResidentService.java:80-85 | as written (finding F5): writing back a resident found without its phone clears the stored phone |
| ResidentService.StatusChangeKeepsPhone | src/main/java/dev/mikita/userservice/service/ResidentService.java:80-85 | corrected: with the phone read, the write-back keeps it |
| ServiceService.GetService | src/main/java/dev/mikita/userservice/service/ServiceService.java:37-43 | the found service, with role SERVICE and a status; errors are the repository's |
| ServiceService.CreateService | src/main/java/dev/mikita/userservice/service/ServiceService.java:51-53 | persist once: fails iff the email is taken |
| ServiceService.UpdateService | src/main/java/dev/mikita/userservice/service/ServiceService.java:62-67 | never updates when not found; otherwise the input is passed unmerged to update |
| ServiceService.DeleteService | src/main/java/dev/mikita/userservice/service/ServiceService.java:77-86 | throws "Service already deleted." without writing; otherwise writes status DELETED once |
| ServiceService.StatusChangeReadsBack | src/main/java/dev/mikita/userservice/service/ServiceService.java:77-86 | a status change reads back, the rest of the service unchanged |
| AnalystService.GetAnalyst | src/main/java/dev/mikita/userservice/service/AnalystService.java:27-29 | the found analyst, with role ANALYST |
| AnalystService.CreateAnalyst | src/main/java/dev/mikita/userservice/service/AnalystService.java:31-33 | persist, unchanged |
| AnalystService.UpdateAnalyst | src/main/java/dev/mikita/userservice/service/AnalystService.java:35-43 | the non-null merge onto the stored analyst is written back |
| AnalystService.UpdateAnalystStatus | src/main/java/dev/mikita/userservice/service/AnalystService.java:45-50 | writes exactly the given status |
| AnalystService.DeleteAnalyst | src/main/java/dev/mikita/userservice/service/AnalystService.java:52-54 | hard delete of both stores, with no already-deleted guard |
| AnalystService.StatusChangeReadsBack | src/main/java/dev/mikita/userservice/service/AnalystService.java:45-50 | a status change reads back |
| AnalystService.DeletedIsGone | src/main/java/dev/mikita/userservice/service/AnalystService.java:52-54 | a deleted analyst cannot be found |
| EmployeeService.GetEmployee | src/main/java/dev/mikita/userservice/service/EmployeeService.java:28-31 | the found employee, read from its record and document |
| EmployeeService.GetEmployeesByServiceUid | src/main/java/dev/mikita/userservice/service/EmployeeService.java:33-35 | the repository's page; every item is an employee of that service |
| EmployeeService.GetEmployeesByDepartmentUid | src/main/java/dev/mikita/userservice/service/EmployeeService.java:37-40 | the repository's list: on success exactly one employee per document of the department, each with that departmentUid |
| EmployeeService.DepartmentCheck | src/main/java/dev/mikita/userservice/service/EmployeeService.java:45-49 | passes iff the department exists and belongs to the caller; a foreign or missing department is NotFound; one without a service throws |
| EmployeeService.CreateEmployee | src/main/java/dev/mikita/userservice/service/EmployeeService.java:42-52 | the serviceUid is bound to the caller; persist runs only after the check passes |
| EmployeeService.UpdateEmployee | src/main/java/dev/mikita/userservice/service/EmployeeService.java:54-57 | the input goes straight to update |
| EmployeeService.DeleteEmployee | src/main/java/dev/mikita/userservice/service/EmployeeService.java:59-66 | an employee that cannot be found is not deleted; one found is hard-deleted |
| EmployeeService.IsEmployeeInDepartment | src/main/java/dev/mikita/userservice/service/EmployeeService.java:68-72 | true iff the stored departmentUid equals the argument; a null one throws |
| EmployeeService.IsEmployeeInService | src/main/java/dev/mikita/userservice/service/EmployeeService.java:74-78 | true iff the stored serviceUid equals the argument; a null one throws |
| EmployeeService.CreatedBelongs | src/main/java/dev/mikita/userservice/service/EmployeeService.java:42-52 | a created employee is an ACTIVE member of the caller's service and of its department, which the caller owns |
| DepartmentService.GetDepartment | src/main/java/dev/mikita/userservice/service/DepartmentService.java:23-25 | a missing department is NotFound; a found one has the uid asked for and the stored serviceUid |
| DepartmentService.GetDepartmentsByServiceUid | src/main/java/dev/mikita/userservice/service/DepartmentService.java:27-30 | the repository's page; every item belongs to the service and is what `getDepartment` returns |
| DepartmentService.Stamped | src/main/java/dev/mikita/userservice/service/DepartmentService.java:32-36 | serviceUid is the caller and creationDate is now; every other field is unchanged |
| DepartmentService.CreateDepartment | src/main/java/dev/mikita/userservice/service/DepartmentService.java:32-36 | always succeeds, storing the stamped department under a fresh id |
| DepartmentService.UpdateDepartment | src/main/java/dev/mikita/userservice/service/DepartmentService.java:38-48 | NotFound without a write; otherwise the merge is written back |
| DepartmentService.DeleteDepartment | src/main/java/dev/mikita/userservice/service/DepartmentService.java:50-52 | removes the document with no existence or ownership check |
| DepartmentService.IsServiceOwnerOfDepartment | src/main/java/dev/mikita/userservice/service/DepartmentService.java:54-56 | true iff the stored serviceUid equals the argument; a null one throws |
| DepartmentService.CreatedIsOwned | src/main/java/dev/mikita/userservice/service/DepartmentService.java:32-36 | a created department reads back as given and is owned by the caller |
| DepartmentService.UpdateReadsBack | src/main/java/dev/mikita/userservice/service/DepartmentService.java:38-48 | an update reads back as the merge, with owner and creation date unchanged |
| DepartmentService.PatchedReadsBack | src/main/java/dev/mikita/userservice/repository/DepartmentRepository.java:58-89 | a department written over its stored document, keeping that document's creation date and service, converts back to exactly that department |
| ModeratorService.GetModerator | src/main/java/dev/mikita/userservice/service/ModeratorService.java:40-46 | as written: only a record whose role claim is "ROLE_MODERATOR" is returned, with its email and status claim; never "User not found." since `find` never yields null |
| ModeratorService.GetModeratorCorrected | src/main/java/dev/mikita/userservice/service/ModeratorService.java:40-46 | corrected (F4): the same read for a record whose role claim is "MODERATOR", as `persist` writes |
| ModeratorService.CreateModerator | src/main/java/dev/mikita/userservice/service/ModeratorService.java:54-56 | persist once, nothing else |
| ModeratorService.UpdateModerator | src/main/java/dev/mikita/userservice/service/ModeratorService.java:65-70 | as written: an error of `find` is thrown with nothing written; otherwise the input is written with the claims reset to MODERATOR/ACTIVE |
| ModeratorService.UpdateModeratorWith | src/main/java/dev/mikita/userservice/service/ModeratorService.java:65-70 | the update for either read and claims: nothing written on an error, otherwise exactly the input |
| ModeratorService.UpdateModeratorCorrected | src/main/java/dev/mikita/userservice/service/ModeratorService.java:65-70 | corrected (F4, F7): a moderator `persist` made is found and written with its own status |
| ModeratorService.DeleteModerator | src/main/java/dev/mikita/userservice/service/ModeratorService.java:80-89 | as written: an error of `find` or an already DELETED moderator throws with nothing written; otherwise the claims are reset, so the moderator stays ACTIVE (F7) |
| ModeratorService.DeleteModeratorWith | src/main/java/dev/mikita/userservice/service/ModeratorService.java:80-89 | the soft delete for either read and claims |
| ModeratorService.DeleteModeratorCorrected | src/main/java/dev/mikita/userservice/service/ModeratorService.java:80-89 | corrected (F4, F7): an already DELETED moderator throws; otherwise status DELETED is stored |
| ModeratorService.DeletedReadsBack | src/main/java/dev/mikita/userservice/service/ModeratorService.java:87-88 | a moderator deleted by the corrected path reads back DELETED |
| ModeratorService.CreatedIsNotFound | src/main/java/dev/mikita/userservice/service/ModeratorService.java:41 | as written (F4): for a moderator `createModerator` made, `find` in get, update and delete reports NotFound |
| Authorization.Request.constructor | src/main/java/dev/mikita/userservice/aspect/FirebaseAuthorizationAspect.java:88-98 | an HTTP request carrying an Authorization header and no attributes yet |
| Authorization.JoinPoint.constructor | src/main/java/dev/mikita/userservice/aspect/FirebaseAuthorizationAspect.java:54-80 | the intercepted method, not yet run |
| Authorization.JoinPoint.Proceed | src/main/java/dev/mikita/userservice/aspect/FirebaseAuthorizationAspect.java:72 | runs the method once; records the token attribute it sees |
| Authorization.TokenFromHeader | src/main/java/dev/mikita/userservice/aspect/FirebaseAuthorizationAspect.java:92-95 | a token iff the header starts with "Bearer ", and it is the rest of the header |
| Authorization.TokenFromContext | src/main/java/dev/mikita/userservice/aspect/FirebaseAuthorizationAspect.java:88-98 | no request context gives no token; otherwise the header's token |
| Authorization.BearerRoundTrip | src/main/java/dev/mikita/userservice/aspect/FirebaseAuthorizationAspect.java:93-94 | "Bearer " followed by a token yields that token |
| Authorization.RoleIsExactMatch | src/main/java/dev/mikita/userservice/aspect/FirebaseAuthorizationAspect.java:100-107 | a "MODERATOR" claim does not satisfy "ROLE_MODERATOR", only "MODERATOR" |
| Authorization.HasRole | src/main/java/dev/mikita/userservice/aspect/FirebaseAuthorizationAspect.java:100-107 | no required roles admits every token; a token without a role claim (null) passes only then |
| Authorization.HasStatus | src/main/java/dev/mikita/userservice/aspect/FirebaseAuthorizationAspect.java:109-116 | no required statuses admits every token; a token without a status claim (null) passes only then |
| Authorization.Admitted | src/main/java/dev/mikita/userservice/aspect/FirebaseAuthorizationAspect.java:57-64 | a verified token iff the bearer token was issued and its role and status pass |
| Authorization.Authorize | src/main/java/dev/mikita/userservice/aspect/FirebaseAuthorizationAspect.java:54-80 | unannotated methods run; otherwise the method runs iff the token is admitted; a missing token, and a verified token failing `hasRole` or `hasStatus`, throw AuthException("Unauthorized") before the method runs; a failing verification propagates; an admitted token is stored as "firebaseToken" first |
| Validation.NullIsValid | src/main/java/dev/mikita/userservice/validation/NullCheckValidator.java:14-16 | null is valid |
| Validation.IsValid | src/main/java/dev/mikita/userservice/validation/NullCheckValidator.java:14-16 | null is valid and the empty string is not |
| Validation.StringValidIff | src/main/java/dev/mikita/userservice/validation/NullCheckValidator.java:14-16 | a string is valid iff it has a character above the blank |
| Validation.BlankIsInvalid | src/main/java/dev/mikita/userservice/validation/NullCheckValidator.java:14-16 | the empty string and all-blank strings are invalid |
| Validation.ListIsValid | src/main/java/dev/mikita/userservice/validation/NullCheckValidator.java:14-16 | a list is valid, as its `toString` is never blank |
| Validation.Violations | src/main/java/dev/mikita/userservice/validation/NullCheckValidator.java:14-16 | no messages iff every field is valid; each message comes from an invalid field |
| ExceptionHandler.Handle | src/main/java/dev/mikita/userservice/controller/handler/RestExceptionHandler.java:30-104 | exactly the handled kinds get a response carrying the message and the URI; validation gives 400 "Validation failed" with the field messages |
| ExceptionHandler.StatusDeterminesKind | src/main/java/dev/mikita/userservice/controller/handler/RestExceptionHandler.java:42-104 | 401 iff AuthException, 404 iff NotFound, 500 iff FirebaseAuthException |
| ExceptionHandler.UnhandledKinds | src/main/java/dev/mikita/userservice/controller/handler/RestExceptionHandler.java:30-104 | a plain RuntimeException and the other unmapped kinds get no response here |
| ExceptionHandler.InvalidBodyResponse | src/main/java/dev/mikita/userservice/controller/handler/RestExceptionHandler.java:81-92 | an invalid body yields 400 whose messages are those of the invalid fields |
| Storage.UuidHasNoSlash | src/main/java/dev/mikita/userservice/util/FirebaseStorageUtil.java:56 | a UUID is non-empty and has no '/' |
| Storage.ParseFileName | src/main/java/dev/mikita/userservice/util/FirebaseStorageUtil.java:30-33 | the last '/'-separated segment; a URL of only slashes throws |
| Storage.ImageExtension | src/main/java/dev/mikita/userservice/util/FirebaseStorageUtil.java:36-54 | accepted iff a name is present, the size is at most 5 MiB and the type is JPEG or PNG, with each rejection's message |
| Storage.UploadImage | src/main/java/dev/mikita/userservice/util/FirebaseStorageUtil.java:35-60 | every check precedes the write; the blob is dirPath + uuid + extension and the URL is the base plus the encoded name |
| Storage.UploadedNameParses | src/main/java/dev/mikita/userservice/util/FirebaseStorageUtil.java:30-59 | parsing an uploaded URL gives its encoded blob name |
| JavaStrings.ReplaceAbsent | src/main/java/dev/mikita/userservice/repository/ModeratorRepository.java:63 | `replace` with an absent target leaves the string |
| JavaStrings.ToUpper | src/main/java/dev/mikita/userservice/repository/ModeratorRepository.java:63 | upper-cases each letter, keeps the length |
| JavaStrings.ToUpperOfUpper | src/main/java/dev/mikita/userservice/repository/ModeratorRepository.java:63 | an upper-case string is its own upper case |
| JavaStrings.LastIndexOf | src/main/java/dev/mikita/userservice/service/UserService.java:78 | −1 iff absent; otherwise the last position of the character |
| JavaStrings.Split | src/main/java/dev/mikita/userservice/util/FirebaseStorageUtil.java:31 | Java `split`: the separated pieces with trailing empty ones dropped |
| JavaStrings.SplitEmptyIff | src/main/java/dev/mikita/userservice/util/FirebaseStorageUtil.java:31-32 | splitting gives no pieces iff the string is non-empty and only separators |
| JavaStrings.SplitLastTwo | src/main/java/dev/mikita/userservice/service/UserService.java:57-58 | the last two pieces of ".../x/y" are x and y |
| JavaStrings.SplitLast | src/main/java/dev/mikita/userservice/util/FirebaseStorageUtil.java:31-32 | the last piece of ".../y" is y |
| JavaStrings.TrimEmptyIff | src/main/java/dev/mikita/userservice/validation/NullCheckValidator.java:15 | `trim` gives "" iff every character is at most the blank |
| JavaStrings.LongListToString | src/main/java/dev/mikita/userservice/validation/NullCheckValidator.java:15 | a list's `toString` starts with "[" and is never empty |
| JavaStrings.UrlEncode | src/main/java/dev/mikita/userservice/util/FirebaseStorageUtil.java:59 | the encoding is never shorter and has no '/' |
| JavaStrings.UrlEncodeUnreserved | src/main/java/dev/mikita/userservice/util/FirebaseStorageUtil.java:59 | unreserved characters are kept as they are |
| JavaStrings.SlashEncoded | src/main/java/dev/mikita/userservice/util/FirebaseStorageUtil.java:59 | "/" encodes as "%2F" |
| JavaStrings.UrlEncodeAppend | src/main/java/dev/mikita/userservice/util/FirebaseStorageUtil.java:59 | encoding distributes over concatenation |
| UserService.OldBlobPath | src/main/java/dev/mikita/userservice/service/UserService.java:57-58 | the last two '/'-separated segments joined by '/'; fewer than two throw |
| UserService.Extension | src/main/java/dev/mikita/userservice/service/UserService.java:78 | the suffix from the last '.'; a name without '.' throws |
| UserService.PhotoPathRoundTrip | src/main/java/dev/mikita/userservice/service/UserService.java:57-84 | the old path recovered from a stored photo URL is the path it was stored under |
| UserService.RemoveOldPhoto | src/main/java/dev/mikita/userservice/service/UserService.java:56-67 | deletes the old blob if present and clears the photo URL |
| UserService.StoreNewPhoto | src/main/java/dev/mikita/userservice/service/UserService.java:74-88 | a null name or a name without '.' throws; otherwise "users/" + uuid + extension is stored and the URL written |
| UserService.UpdatePhotoWith | src/main/java/dev/mikita/userservice/service/UserService.java:44-89 | the old photo is removed before the new one is checked; a missing user throws first |
| UserService.UpdateUserPhoto | src/main/java/dev/mikita/userservice/service/UserService.java:44-89 | as written: a user without a photo gets NotFound and nothing changes |
| UserService.NewUserHasNoPhoto | src/main/java/dev/mikita/userservice/service/UserService.java:56-70 | finding F6: a newly created user has no photo, so its first upload is refused |
| UserService.UpdateUserPhotoAllowingFirst | src/main/java/dev/mikita/userservice/service/UserService.java:44-89 | corrected: a user without a photo gets the new photo |
| ServiceController.DirectionValueOf | src/main/java/dev/mikita/userservice/controller/ServiceController.java:149 | parses exactly "ASCENDING" and "DESCENDING" |
| ServiceController.DirectionOf | src/main/java/dev/mikita/userservice/controller/ServiceController.java:84-93 | ASC maps to ASCENDING and DESC to DESCENDING, by name |
| ServiceController.Respond | src/main/java/dev/mikita/userservice/controller/ServiceController.java:156-162 | the response copies items, currentPage, totalItems and totalPages unchanged |
| ServiceController.GetService | src/main/java/dev/mikita/userservice/controller/ServiceController.java:124-136 | visible iff found and ACTIVE; a DELETED or BANNED service is NotFound |
| ServiceController.ServicesPageable | src/main/java/dev/mikita/userservice/controller/ServiceController.java:146-150 | sort field defaults to "creationDate" and order to DESCENDING; page and size clamped |
| ServiceController.DefaultOrderIsNewestFirst | src/main/java/dev/mikita/userservice/controller/ServiceController.java:146-150 | with no parameters the items query orders by creationDate, newest first |
| ServiceController.GetServices | src/main/java/dev/mikita/userservice/controller/ServiceController.java:140-165 | the repository listing with statuses null, wrapped as "services" |
| ServiceController.ServiceOf | src/main/java/dev/mikita/userservice/controller/ServiceController.java:194-198 | the request mapped to a service with the token's uid and no status |
| ServiceController.ApplyChanges | src/main/java/dev/mikita/userservice/controller/ServiceController.java:194-198 | corrected mapping: the request's non-null fields over the stored service |
| ServiceController.UpdateCurrentServiceAsWritten | src/main/java/dev/mikita/userservice/controller/ServiceController.java:190-203 | as written (finding F3): always throws, and nothing is written |
| ServiceController.AsWrittenNeverUpdatable | src/main/java/dev/mikita/userservice/controller/ServiceController.java:194-200 | the mapped service can never be updated, as its status is null |
| ServiceController.UpdateCurrentService | src/main/java/dev/mikita/userservice/controller/ServiceController.java:190-203 | corrected: the caller's stored service with the changes is written back |
| ServiceController.CorrectedUpdatable | src/main/java/dev/mikita/userservice/controller/ServiceController.java:190-203 | the corrected write succeeds iff the record has a status claim and no email or phone conflict |
| ServiceController.OwnListPageable | src/main/java/dev/mikita/userservice/controller/ServiceController.java:239-240 | sortBy "serviceUid", DESCENDING, page and size clamped |
| ServiceController.GetDepartments | src/main/java/dev/mikita/userservice/controller/ServiceController.java:231-255 | the caller's departments page, at most `size` items, each owned by the caller |
| ServiceController.GetEmployees | src/main/java/dev/mikita/userservice/controller/ServiceController.java:259-282 | the caller's employees page, each an employee of the caller |
| DepartmentController.DepartmentOf | src/main/java/dev/mikita/userservice/controller/DepartmentController.java:72-75 | the request mapped to a department with the given uid and no owner or date |
| DepartmentController.SwitchAccess | src/main/java/dev/mikita/userservice/controller/DepartmentController.java:46-57 | the role switch: the service case checks ownership, the employee case membership, any other role skips both |
| DepartmentController.GetDepartmentAsWritten | src/main/java/dev/mikita/userservice/controller/DepartmentController.java:41-63 | as written (finding F2): every caller the gate admits reads the department |
| DepartmentController.GetDepartment | src/main/java/dev/mikita/userservice/controller/DepartmentController.java:41-63 | corrected: a result is always the department itself |
| DepartmentController.AsWrittenSkipsChecks | src/main/java/dev/mikita/userservice/controller/DepartmentController.java:40-57 | for every admitted caller, as written is plain `getDepartment` |
| DepartmentController.CorrectedChecksOwnership | src/main/java/dev/mikita/userservice/controller/DepartmentController.java:40-57 | corrected: a service reads only its own departments; an employee only one it belongs to |
| DepartmentController.ForeignServiceExample | src/main/java/dev/mikita/userservice/controller/DepartmentController.java:40-57 | a department of service "s1" is read by service "s2" as written, and refused when corrected |
| DepartmentController.CreateDepartment | src/main/java/dev/mikita/userservice/controller/DepartmentController.java:68-76 | the department is created for the token's uid, which then owns it |
| DepartmentController.UpdateDepartment | src/main/java/dev/mikita/userservice/controller/DepartmentController.java:80-99 | a non-owner is refused before any write; the path uid overrides the body |
| DepartmentController.UpdateKeepsOwner | src/main/java/dev/mikita/userservice/controller/DepartmentController.java:80-99 | an owner's update reads back as the merge and stays owned by the caller |
| DepartmentController.DeleteCheck | src/main/java/dev/mikita/userservice/controller/DepartmentController.java:103-113 | passes iff the department exists and is the caller's; otherwise NotFound or Unauthorized |
| DepartmentController.DeleteDepartment | src/main/java/dev/mikita/userservice/controller/DepartmentController.java:103-113 | deletes only when the check passes |
| DepartmentController.ListCheck | src/main/java/dev/mikita/userservice/controller/DepartmentController.java:117-127 | passes iff the caller owns the department or is an employee in it |
| DepartmentController.GetDepartmentEmployees | src/main/java/dev/mikita/userservice/controller/DepartmentController.java:117-131 | a refused caller gets the check's error; an allowed caller gets exactly the department's listing (one employee per document of the department), or its exception |
| EmployeeController.EmployeeOf | src/main/java/dev/mikita/userservice/controller/EmployeeController.java:51-58 | the request mapped to an employee with no uid, service or status |
| EmployeeController.ApplyChanges | src/main/java/dev/mikita/userservice/controller/EmployeeController.java:74-76 | the mapper read as same-name copying: each non-null property of the body replaces the employee's; uid, status, role, service, photo and creation date stay |
| EmployeeController.ApplyChangesByTokens | src/main/java/dev/mikita/userservice/controller/EmployeeController.java:74-76 | the mapper read with token matching: the same copy, except that a non-null departmentUid also becomes the uid |
| EmployeeController.GetEmployee | src/main/java/dev/mikita/userservice/controller/EmployeeController.java:34-46 | returned iff it is an employee of the caller; another service's is Unauthorized; a null serviceUid throws |
| EmployeeController.CreateEmployee | src/main/java/dev/mikita/userservice/controller/EmployeeController.java:51-58 | the token's uid is the serviceUid, whatever the body says |
| EmployeeController.UpdateEmployeeAsWritten | src/main/java/dev/mikita/userservice/controller/EmployeeController.java:62-81 | as written (finding F8), with the body mapped by property name: a caller that does not own the employee gets the ownership error; otherwise the same-name merge is written back whatever department it names, and nothing is written when `update` fails |
| EmployeeController.UpdateEmployeeByTokens | src/main/java/dev/mikita/userservice/controller/EmployeeController.java:62-81 | as written, with the body mapped by tokens: the merge is written to the user whose uid is the body's department, and a department uid that names no user throws with nothing written |
| EmployeeController.UpdateEmployee | src/main/java/dev/mikita/userservice/controller/EmployeeController.java:62-81 | corrected: a new department must belong to the caller |
| EmployeeController.UpdateReadsBack | src/main/java/dev/mikita/userservice/controller/EmployeeController.java:62-81 | after the write-back, `find` reads the merge back (without its password), the employee is in the caller's service and in the department the merge names |
| EmployeeController.UpdatedDocument | src/main/java/dev/mikita/userservice/repository/EmployeeRepository.java:143-153 | the document written back holds the caller's service, the merge's department and names |
| EmployeeController.PatchedEmployee | src/main/java/dev/mikita/userservice/repository/EmployeeRepository.java:143-153 | the patched employee document holds the new names and department and keeps its stored service |
| EmployeeController.DeleteCheckAsWritten | src/main/java/dev/mikita/userservice/controller/EmployeeController.java:89-91 | as written (finding F1): refuses exactly the caller's own employees |
| EmployeeController.DeleteCheck | src/main/java/dev/mikita/userservice/controller/EmployeeController.java:85-94 | corrected: passes iff the employee is the caller's |
| EmployeeController.DeleteCheckInverted | src/main/java/dev/mikita/userservice/controller/EmployeeController.java:89-91 | wherever the test can be evaluated, the written check passes iff the corrected one fails |
| EmployeeController.DeleteEmployeeAsWritten | src/main/java/dev/mikita/userservice/controller/EmployeeController.java:85-94 | as written: deletes exactly the employees of other services |
| EmployeeController.DeleteEmployee | src/main/java/dev/mikita/userservice/controller/EmployeeController.java:85-94 | corrected: deletes only the caller's own employee |

## Left out

- Firebase and Firestore client mechanics (futures, the query builder, token signature checking) are modelled as synchronous operations on `Firebase.Backend`. Query ordering is an oracle (`Firebase.Arrangement`): which order Firestore's indexes give is not modelled, only that each document the query can return comes exactly once. `orderBy(field)` returns only the matching documents that hold the field (`Firebase.Sortable`), while the count query has no `orderBy` and counts them all; a listing sorted by a field some document lacks therefore reports more items than its pages hold (`PagedQueries.ListingPagesCover`).
- `DocumentSnapshot.getString` and `getDate` throw when a field holds a value of another type; `Firebase.GetString` and `Firebase.GetDate` read such a field as null instead. Every field the repositories read is written by them with the type they read it as.
- EmployeeController.ApplyChanges: `modelMapper.map(requestDto, employee)` is modelled as copying each property onto the one of the same name. ModelMapper's default token matching may also fill `uid` from `departmentUid`; `EmployeeController.ApplyChangesByTokens` and `UpdateEmployeeByTokens` model that reading, under which the update throws at `getUser` instead of moving the employee. Which of the two the library does is not settled here, and the rest of the model uses the same-name reading.
- EmployeeController.EmployeeOf: under the token-matching reading the created employee's uid would be the department's, which `persist` never reads, so the created user is the same.
- `NotFoundException` is not part of this model: `Firebase.EntityNotFound` gives its message as "<resource> identified by <id> not found.", which only stands in for the real one.
- SDK argument validation (a null email in `setEmail`, password length, an empty `whereIn` list beyond its error) is not modelled.
- A null claim value cannot be stored: putting one is modelled as removing the key.
- Email addresses are compared exactly. Firebase's case folding is not modelled.
- `Math.ceil` on doubles is modelled as integer ceiling division (`Paging.CeilDiv`). Doubles lose no precision at the sizes involved.
- Clocks, time zones and UUIDs are method parameters (`now`, `uuid`). Fresh ids are chosen by the backend.
- JavaStrings.ToUpper: upper-cases ASCII letters only, as the role names are ASCII. Locale rules are not modelled.
- JavaStrings.UrlEncode: only its shape is stated (no '/', distributes over concatenation), not every byte of the encoding.
- `FirebaseStorageUtil.deleteFile` and its `URLDecoder` are not part of this model.
- Storage.ParseFileName: a null URL is not modelled; the callers always pass one.
- `AnalystService.getAnalysts` calls a `findAll()` that `AnalystRepository` does not define, so it is not modelled.
- `ServiceController.getServicesCount` calls a method `ServiceService` does not define. The count it would show is `ServiceRepository.CountActive`.
- The `getCurrent*` endpoints and `updateCurrentServicePhoto` only delegate (the latter to `UserService.UpdateUserPhoto`), so they have no members of their own.
- The `ErrorInfo` and `NotFoundException` classes are not part of this model beyond the fields `ExceptionHandler.Handle` fills.
- Routing-only controllers (admin, resident, analyst and moderator controllers), configuration, serializers and the response DTO mapping are not modelled.
- The HTTP calls of `ResidentController` to the issue service are network I/O and are left out.
- Logging is left out.
- Lost-update races between concurrent requests are outside a sequential model.
- DepartmentService.GetDepartmentsByServiceUid: the "is what `getDepartment` returns" clause is stated only for departments with a non-empty id, because Firestore never lists a document with an empty id.

## Findings

| source | as written | input that shows it | evidently intended | confidence | as-written member | corrected member |
|---|---|---|---|---|---|---|
| src/main/java/dev/mikita/userservice/controller/EmployeeController.java:89-91 | F1: `deleteEmployee` throws Unauthorized when the employee IS in the caller's service | service "s" deletes its own employee "e" and is refused, while another service's employee is deleted | only the caller's own employees may be deleted | not executed | EmployeeController.DeleteCheckAsWritten | EmployeeController.DeleteCheck |
| src/main/java/dev/mikita/userservice/controller/DepartmentController.java:40-57 | F2: the role switch tests "ROLE_SERVICE" and "ROLE_EMPLOYEE", but the gate admits only "SERVICE" and "EMPLOYEE", so no check ever runs | service "s2" reads the department of service "s1" | a service reads its own departments, an employee those it belongs to | not executed | DepartmentController.GetDepartmentAsWritten | DepartmentController.GetDepartment |
| src/main/java/dev/mikita/userservice/controller/ServiceController.java:194-200 | F3: the request is mapped to a fresh service with a null status, and `update` calls `getStatus().toString()` on it | any PATCH of the current service throws NullPointerException | the changes are merged onto the stored service, which is written back | not executed | ServiceController.UpdateCurrentServiceAsWritten | ServiceController.UpdateCurrentService |
| src/main/java/dev/mikita/userservice/repository/ModeratorRepository.java:52 | F4: `find` accepts only the role claim "ROLE_MODERATOR", but `persist` writes "MODERATOR" | a moderator just created is NotFound | `find` accepts the role `persist` writes | not executed | ModeratorRepository.PersistedIsNotFound | ModeratorRepository.PersistThenFindStored |
| src/main/java/dev/mikita/userservice/repository/ResidentRepository.java:226-241 | F5: `makeResident` leaves the phone null, and `update` then writes that null over the stored phone | a status change of a resident with phone "+1" clears the phone | the resident is read with its phone, so a write-back keeps it | not executed | ResidentService.StatusChangeErasesPhone | ResidentService.StatusChangeKeepsPhone |
| src/main/java/dev/mikita/userservice/service/UserService.java:56-70 | F6: a user with no photo gets NotFound("User does not have a photo.") | a new user's first photo upload is refused | the old photo is removed only if there is one, and the new one is stored either way | not executed | UserService.NewUserHasNoPhoto | UserService.UpdateUserPhotoAllowingFirst |
| src/main/java/dev/mikita/userservice/repository/ModeratorRepository.java:113-117 | F7: `update` resets the status claim to ACTIVE, so `deleteModerator` leaves the moderator ACTIVE | delete an ACTIVE moderator, then read it back: still ACTIVE | the status written by the service is stored | not executed | ModeratorRepository.UpdateResetsStatus | ModeratorRepository.UpdateKeepingStatusReadsBack |
| src/main/java/dev/mikita/userservice/controller/EmployeeController.java:62-81 | F8: the body's departmentUid is written with no check that the department belongs to the caller, unlike `createEmployee` (with the body mapped by property name; under ModelMapper's token matching the same request throws at `getUser` instead, see `UpdateEmployeeByTokens`) | service "s" moves its employee into a department of service "t" | the same department check `createEmployee` makes | not executed; rests on the same-name reading of the mapper | EmployeeController.UpdateEmployeeAsWritten | EmployeeController.UpdateEmployee |
