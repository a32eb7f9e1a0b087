/** The entity objects the repositories return and accept, one datatype per
    Java class. Every Java reference field may be null, so every field is an
    `Option`. The common fields of `User` are repeated in each kind. */
module Entities {
  import opened Common

  datatype Resident = Resident(
    uid: Option<Uid>, email: Option<string>, password: Option<string>, photo: Option<string>,
    phoneNumber: Option<string>, role: Option<UserRole>, status: Option<UserStatus>,
    creationDate: Option<Timestamp>, firstName: Option<string>, lastName: Option<string>)

  datatype Service = Service(
    uid: Option<Uid>, email: Option<string>, password: Option<string>, photo: Option<string>,
    phoneNumber: Option<string>, role: Option<UserRole>, status: Option<UserStatus>,
    creationDate: Option<Timestamp>, name: Option<string>, description: Option<string>,
    address: Option<string>)

  datatype Analyst = Analyst(
    uid: Option<Uid>, email: Option<string>, password: Option<string>, photo: Option<string>,
    phoneNumber: Option<string>, role: Option<UserRole>, status: Option<UserStatus>,
    creationDate: Option<Timestamp>, name: Option<string>, description: Option<string>)

  datatype Employee = Employee(
    uid: Option<Uid>, email: Option<string>, password: Option<string>, photo: Option<string>,
    phoneNumber: Option<string>, role: Option<UserRole>, status: Option<UserStatus>,
    creationDate: Option<Timestamp>, firstName: Option<string>, lastName: Option<string>,
    serviceUid: Option<Uid>, departmentUid: Option<Uid>)

  datatype Moderator = Moderator(
    uid: Option<Uid>, email: Option<string>, password: Option<string>, photo: Option<string>,
    role: Option<UserRole>, status: Option<UserStatus>)

  datatype Department = Department(
    uid: Option<Uid>, name: Option<string>, description: Option<string>, address: Option<string>,
    phoneNumber: Option<string>, creationDate: Option<Timestamp>, categories: Option<seq<int>>,
    serviceUid: Option<Uid>)

  /** ModelMapper with the "is not null" property condition copying one
      resident onto another: each non-null property of `src` overwrites, and
      every null one leaves the property of `dst`. */
  function MergeResident(src: Resident, dst: Resident): (r: Resident)
    ensures r.uid == (if src.uid.Some? then src.uid else dst.uid)
    ensures r.email == (if src.email.Some? then src.email else dst.email)
    ensures r.password == (if src.password.Some? then src.password else dst.password)
    ensures r.photo == (if src.photo.Some? then src.photo else dst.photo)
    ensures r.phoneNumber == (if src.phoneNumber.Some? then src.phoneNumber else dst.phoneNumber)
    ensures r.role == (if src.role.Some? then src.role else dst.role)
    ensures r.status == (if src.status.Some? then src.status else dst.status)
    ensures r.creationDate == (if src.creationDate.Some? then src.creationDate else dst.creationDate)
    ensures r.firstName == (if src.firstName.Some? then src.firstName else dst.firstName)
    ensures r.lastName == (if src.lastName.Some? then src.lastName else dst.lastName)
  {
    Resident(Pick(src.uid, dst.uid), Pick(src.email, dst.email), Pick(src.password, dst.password),
             Pick(src.photo, dst.photo), Pick(src.phoneNumber, dst.phoneNumber), Pick(src.role, dst.role),
             Pick(src.status, dst.status), Pick(src.creationDate, dst.creationDate),
             Pick(src.firstName, dst.firstName), Pick(src.lastName, dst.lastName))
  }

  /** The same copy for analysts. */
  function MergeAnalyst(src: Analyst, dst: Analyst): (r: Analyst)
    ensures r.uid == (if src.uid.Some? then src.uid else dst.uid)
    ensures r.email == (if src.email.Some? then src.email else dst.email)
    ensures r.password == (if src.password.Some? then src.password else dst.password)
    ensures r.photo == (if src.photo.Some? then src.photo else dst.photo)
    ensures r.phoneNumber == (if src.phoneNumber.Some? then src.phoneNumber else dst.phoneNumber)
    ensures r.role == (if src.role.Some? then src.role else dst.role)
    ensures r.status == (if src.status.Some? then src.status else dst.status)
    ensures r.creationDate == (if src.creationDate.Some? then src.creationDate else dst.creationDate)
    ensures r.name == (if src.name.Some? then src.name else dst.name)
    ensures r.description == (if src.description.Some? then src.description else dst.description)
  {
    Analyst(Pick(src.uid, dst.uid), Pick(src.email, dst.email), Pick(src.password, dst.password),
            Pick(src.photo, dst.photo), Pick(src.phoneNumber, dst.phoneNumber), Pick(src.role, dst.role),
            Pick(src.status, dst.status), Pick(src.creationDate, dst.creationDate),
            Pick(src.name, dst.name), Pick(src.description, dst.description))
  }

  /** The same copy for departments, with collection merging switched off:
      a non-null category list replaces the old one. */
  function MergeDepartment(src: Department, dst: Department): (r: Department)
    ensures r.uid == (if src.uid.Some? then src.uid else dst.uid)
    ensures r.name == (if src.name.Some? then src.name else dst.name)
    ensures r.description == (if src.description.Some? then src.description else dst.description)
    ensures r.address == (if src.address.Some? then src.address else dst.address)
    ensures r.phoneNumber == (if src.phoneNumber.Some? then src.phoneNumber else dst.phoneNumber)
    ensures r.creationDate == (if src.creationDate.Some? then src.creationDate else dst.creationDate)
    ensures r.categories == (if src.categories.Some? then src.categories else dst.categories)
    ensures r.serviceUid == (if src.serviceUid.Some? then src.serviceUid else dst.serviceUid)
  {
    Department(Pick(src.uid, dst.uid), Pick(src.name, dst.name), Pick(src.description, dst.description),
               Pick(src.address, dst.address), Pick(src.phoneNumber, dst.phoneNumber),
               Pick(src.creationDate, dst.creationDate), Pick(src.categories, dst.categories),
               Pick(src.serviceUid, dst.serviceUid))
  }

  /** Merging nothing keeps the target, and merging twice is merging once. */
  lemma MergeLaws(rd: Resident, ad: Analyst, dd: Department, rs: Resident, as_: Analyst, ds: Department)
    ensures MergeResident(Resident(None, None, None, None, None, None, None, None, None, None), rd) == rd
    ensures MergeResident(rs, MergeResident(rs, rd)) == MergeResident(rs, rd)
    ensures MergeAnalyst(Analyst(None, None, None, None, None, None, None, None, None, None), ad) == ad
    ensures MergeAnalyst(as_, MergeAnalyst(as_, ad)) == MergeAnalyst(as_, ad)
    ensures MergeDepartment(Department(None, None, None, None, None, None, None, None), dd) == dd
    ensures MergeDepartment(ds, MergeDepartment(ds, dd)) == MergeDepartment(ds, dd)
  {
  }
}
