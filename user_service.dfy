/** service/UserService.java: replacing a user's profile photo. The old
    photo's blob is found again from the last two parts of its URL, deleted,
    and the new one is stored under `users/` with a fresh name. */
module UserService {
  import opened Common
  import opened Firebase
  import opened JavaStrings
  import opened Storage

  /** A record has a photo when its photo URL is neither null nor empty. */
  predicate HasPhoto(rec: UserRecord) {
    rec.photoUrl.Some? && rec.photoUrl.value != ""
  }

  /** The blob path of the current photo: the last two parts of the URL
      joined by a slash; fewer than two parts is an index out of bounds. */
  function OldBlobPath(url: string): (r: Result<string>)
    ensures r.Ok? <==> |Split(url, '/')| >= 2
    ensures r.Ok? ==> var parts := Split(url, '/');
                      r.value == parts[|parts| - 2] + "/" + parts[|parts| - 1]
    ensures r.Err? ==> r.error == IndexOutOfBounds
  {
    var parts := Split(url, '/');
    if |parts| < 2 then Err(IndexOutOfBounds)
    else Ok(parts[|parts| - 2] + "/" + parts[|parts| - 1])
  }

  /** `name.substring(name.lastIndexOf('.'))`: from the last dot on; without
      a dot the index is -1 and `substring` throws. */
  function Extension(name: string): (r: Result<string>)
    ensures r.Ok? <==> '.' in name
    ensures r.Ok? ==> 1 <= |r.value| <= |name| && r.value[0] == '.' && '.' !in r.value[1..]
                      && name == name[..|name| - |r.value|] + r.value
    ensures r.Err? ==> r.error == IndexOutOfBounds
  {
    var k := LastIndexOf(name, '.');
    if k == -1 then Err(IndexOutOfBounds)
    else
      assert name == name[..k] + name[k..];
      assert name[k..][1..] == name[k + 1..];
      Ok(name[k..])
  }

  function PhotoPath(uuid: string, ext: string): string {
    "users/" + uuid + ext
  }

  /** The public URL of a stored photo. */
  function PhotoUrl(bucket: string, path: string): string {
    "https://storage.googleapis.com/" + bucket + "/" + path
  }

  /** The URL a photo update writes leads the next update back to the blob
      it stored: the last two parts are "users" and the new file name. */
  lemma {:induction false} PhotoPathRoundTrip(bucket: string, uuid: string, ext: string)
    requires IsUuid(uuid) && '/' !in ext
    ensures OldBlobPath(PhotoUrl(bucket, PhotoPath(uuid, ext))) == Ok(PhotoPath(uuid, ext))
  {
    UuidHasNoSlash(uuid);
    var prefix := "https://storage.googleapis.com/" + bucket;
    assert PhotoUrl(bucket, PhotoPath(uuid, ext)) == prefix + ['/'] + "users" + ['/'] + (uuid + ext);
    assert '/' !in uuid + ext by {
      forall i | 0 <= i < |uuid + ext| ensures (uuid + ext)[i] != '/' {
        if i < |uuid| {
          assert (uuid + ext)[i] == uuid[i];
        } else {
          assert (uuid + ext)[i] == ext[i - |uuid|];
        }
      }
    }
    SplitLastTwo(prefix, '/', "users", uuid + ext);
    assert "users" + "/" + (uuid + ext) == PhotoPath(uuid, ext);
  }

  /** The blobs once the old photo, if it was found, is deleted. */
  function WithoutOldPhoto(blobs: map<string, Blob>, rec: UserRecord): map<string, Blob> {
    if HasPhoto(rec) && OldBlobPath(rec.photoUrl.value).Ok? then blobs - {OldBlobPath(rec.photoUrl.value).value}
    else blobs
  }

  /** What decides whether the routine gets past the old photo. */
  predicate OldPhotoHandled(rec: UserRecord, requirePhoto: bool) {
    if HasPhoto(rec) then OldBlobPath(rec.photoUrl.value).Ok? else !requirePhoto
  }

  /** The first half of `updateUserPhoto` for a user with a photo: delete
      its blob if the bucket has it, then clear the photo URL. */
  method RemoveOldPhoto(store: Backend, uid: Uid) returns (r: Outcome)
    requires uid in store.users && HasPhoto(store.users[uid])
    modifies store
    ensures var rec := old(store.users)[uid];
            (r.Pass? <==> OldBlobPath(rec.photoUrl.value).Ok?)
            && (r.Fail? ==> r == Fail(IndexOutOfBounds) && store.users == old(store.users) && store.blobs == old(store.blobs))
            && (r.Pass? ==> store.users == old(store.users)[uid := rec.(photoUrl := None)]
                            && store.blobs == WithoutOldPhoto(old(store.blobs), rec))
    ensures store.docs == old(store.docs)
  {
    var oldPath := OldBlobPath(store.users[uid].photoUrl.value);
    if oldPath.Err? {
      return Fail(oldPath.error);
    }
    if oldPath.value in store.blobs {
      store.DeleteBlob(oldPath.value);
    }
    r := store.UpdateUser(NoChange(uid).(photoUrl := Set(None)));
  }

  /** The second half: the new photo's name, its blob and the new URL. */
  method StoreNewPhoto(store: Backend, uid: Uid, file: Upload, uuid: string) returns (r: Outcome)
    requires uid in store.users
    modifies store
    ensures file.originalFilename.None? ==>
              r == Fail(IllegalArgument("Original filename is null"))
              && store.users == old(store.users) && store.blobs == old(store.blobs)
    ensures file.originalFilename.Some? && Extension(file.originalFilename.value).Err? ==>
              r == Fail(IndexOutOfBounds) && store.users == old(store.users) && store.blobs == old(store.blobs)
    ensures file.originalFilename.Some? && Extension(file.originalFilename.value).Ok? ==>
              var path := PhotoPath(uuid, Extension(file.originalFilename.value).value);
              r == Pass
              && store.users == old(store.users)[uid := old(store.users)[uid].(photoUrl := Some(PhotoUrl(store.bucket, path)))]
              && store.blobs == old(store.blobs)[path := Blob(file.contentType, file.size)]
    ensures store.docs == old(store.docs)
  {
    if file.originalFilename.None? {
      return Fail(IllegalArgument("Original filename is null"));
    }
    var ext := Extension(file.originalFilename.value);
    if ext.Err? {
      return Fail(ext.error);
    }
    var path := PhotoPath(uuid, ext.value);
    store.CreateBlob(path, Blob(file.contentType, file.size));
    var url := PhotoUrl(store.bucket, path);
    r := store.UpdateUser(NoChange(uid).(photoUrl := Set(Some(url))));
  }

  /** The users after the old photo is handled. */
  function Cleared(users: map<Uid, UserRecord>, uid: Uid): map<Uid, UserRecord>
    requires uid in users
  {
    if HasPhoto(users[uid]) then users[uid := users[uid].(photoUrl := None)] else users
  }

  /** `updateUserPhoto(uid, photoFile)`; `requirePhoto` says whether a user
      without a photo is refused, as the code does. `uuid` is the fresh
      name the code draws. */
  method UpdatePhotoWith(store: Backend, uid: Uid, file: Upload, uuid: string, requirePhoto: bool) returns (r: Outcome)
    modifies store
    ensures GetUserIn(old(store.users), Some(uid)).Err? ==>
              r == Fail(GetUserIn(old(store.users), Some(uid)).error)
              && store.users == old(store.users) && store.blobs == old(store.blobs)
    ensures GetUserIn(old(store.users), Some(uid)).Ok? && !OldPhotoHandled(old(store.users)[uid], requirePhoto) ==>
              store.users == old(store.users) && store.blobs == old(store.blobs)
              && r == Fail(if HasPhoto(old(store.users)[uid]) then IndexOutOfBounds else NotFound("User does not have a photo."))
    ensures GetUserIn(old(store.users), Some(uid)).Ok? && OldPhotoHandled(old(store.users)[uid], requirePhoto)
            && (file.originalFilename.None? || Extension(file.originalFilename.value).Err?) ==>
              r == Fail(if file.originalFilename.None? then IllegalArgument("Original filename is null") else IndexOutOfBounds)
              && store.users == Cleared(old(store.users), uid)
              && store.blobs == WithoutOldPhoto(old(store.blobs), old(store.users)[uid])
    ensures GetUserIn(old(store.users), Some(uid)).Ok? && OldPhotoHandled(old(store.users)[uid], requirePhoto)
            && file.originalFilename.Some? && Extension(file.originalFilename.value).Ok? ==>
              var path := PhotoPath(uuid, Extension(file.originalFilename.value).value);
              r == Pass
              && store.users == old(store.users)[uid := old(store.users)[uid].(photoUrl := Some(PhotoUrl(store.bucket, path)))]
              && store.blobs == WithoutOldPhoto(old(store.blobs), old(store.users)[uid])[path := Blob(file.contentType, file.size)]
    ensures store.docs == old(store.docs)
  {
    var found := store.GetUser(Some(uid));
    if found.Err? {
      return Fail(found.error);
    }
    var current := found.value.photoUrl;
    if current.Some? && current.value != "" {
      var removed := RemoveOldPhoto(store, uid);
      if removed.Fail? {
        return removed;
      }
    } else if requirePhoto {
      return Fail(NotFound("User does not have a photo."));
    }
    r := StoreNewPhoto(store, uid, file, uuid);
  }

  /** `updateUserPhoto` as written: a user without a photo is refused with
      NotFound and nothing changes. */
  method UpdateUserPhoto(store: Backend, uid: Uid, file: Upload, uuid: string) returns (r: Outcome)
    modifies store
    ensures GetUserIn(old(store.users), Some(uid)).Ok? && !HasPhoto(old(store.users)[uid]) ==>
              r == Fail(NotFound("User does not have a photo."))
              && store.users == old(store.users) && store.blobs == old(store.blobs)
    ensures GetUserIn(old(store.users), Some(uid)).Ok? && HasPhoto(old(store.users)[uid])
            && OldBlobPath(old(store.users)[uid].photoUrl.value).Ok?
            && file.originalFilename.Some? && Extension(file.originalFilename.value).Ok? ==>
              var path := PhotoPath(uuid, Extension(file.originalFilename.value).value);
              r == Pass
              && store.users == old(store.users)[uid := old(store.users)[uid].(photoUrl := Some(PhotoUrl(store.bucket, path)))]
              && store.blobs == WithoutOldPhoto(old(store.blobs), old(store.users)[uid])[path := Blob(file.contentType, file.size)]
    ensures store.docs == old(store.docs)
  {
    r := UpdatePhotoWith(store, uid, file, uuid, true);
  }

  /** Finding F6: no create request gives a user a photo, so a user of
      this service who never had one can never get a first photo. */
  lemma NewUserHasNoPhoto(req: CreateRequest, now: Timestamp)
    ensures !HasPhoto(NewRecord(req, now))
    ensures !OldPhotoHandled(NewRecord(req, now), true)
  {
  }

  /** `updateUserPhoto` with the missing photo treated as nothing to delete:
      a user without a photo gets the new one. */
  method UpdateUserPhotoAllowingFirst(store: Backend, uid: Uid, file: Upload, uuid: string) returns (r: Outcome)
    modifies store
    ensures GetUserIn(old(store.users), Some(uid)).Ok? && !HasPhoto(old(store.users)[uid])
            && file.originalFilename.Some? && Extension(file.originalFilename.value).Ok? ==>
              var path := PhotoPath(uuid, Extension(file.originalFilename.value).value);
              r == Pass
              && store.users == old(store.users)[uid := old(store.users)[uid].(photoUrl := Some(PhotoUrl(store.bucket, path)))]
              && store.blobs == old(store.blobs)[path := Blob(file.contentType, file.size)]
    ensures GetUserIn(old(store.users), Some(uid)).Ok? && HasPhoto(old(store.users)[uid])
            && OldBlobPath(old(store.users)[uid].photoUrl.value).Ok?
            && file.originalFilename.Some? && Extension(file.originalFilename.value).Ok? ==>
              var path := PhotoPath(uuid, Extension(file.originalFilename.value).value);
              r == Pass
              && store.users == old(store.users)[uid := old(store.users)[uid].(photoUrl := Some(PhotoUrl(store.bucket, path)))]
              && store.blobs == WithoutOldPhoto(old(store.blobs), old(store.users)[uid])[path := Blob(file.contentType, file.size)]
    ensures store.docs == old(store.docs)
  {
    r := UpdatePhotoWith(store, uid, file, uuid, false);
  }
}
