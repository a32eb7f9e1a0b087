/** util/FirebaseStorageUtil.java: image uploads to the storage bucket and
    the file name at the end of a download URL. */
module Storage {
  import opened Common
  import opened Firebase
  import opened JavaStrings

  /** The parts of an uploaded `MultipartFile` the code looks at. */
  datatype Upload = Upload(originalFilename: Option<string>, size: nat, contentType: Option<string>)

  /** 5 MiB: the largest accepted image. */
  const MAX_IMAGE_SIZE: nat := 5 * 1024 * 1024

  /** `randomUUID().toString()`: 36 lower-case hexadecimal digits and dashes. */
  predicate IsUuid(u: string) {
    |u| == 36 && forall i :: 0 <= i < |u| ==> u[i] in "0123456789abcdef-"
  }

  lemma UuidHasNoSlash(u: string)
    requires IsUuid(u)
    ensures '/' !in u && u != ""
  {
    forall i | 0 <= i < |u| ensures u[i] != '/' {
      assert u[i] in "0123456789abcdef-";
    }
  }

  /** The download URL prefix of the bucket, `BASE_URL`. */
  function BaseUrl(bucket: string): string {
    "https://firebasestorage.googleapis.com/v0/b/" + bucket + "/o/"
  }

  /** `parseFileName(url)`: the last part of `url.split("/")`; a URL made
      only of slashes splits into nothing and the index is out of bounds. */
  function ParseFileName(url: string): (r: Result<string>)
    ensures r.Ok? ==> '/' !in r.value
    ensures '/' !in url ==> r == Ok(url)
    ensures r.Err? <==> url != "" && forall j :: 0 <= j < |url| ==> url[j] == '/'
    ensures r.Err? ==> r.error == IndexOutOfBounds
  {
    SplitEmptyIff(url, '/');
    var parts := Split(url, '/');
    if |parts| == 0 then Err(IndexOutOfBounds) else Ok(parts[|parts| - 1])
  }

  /** The checks of `uploadImage`, in order, and the extension the content
      type selects. */
  function ImageExtension(file: Upload): (r: Result<string>)
    ensures r.Ok? <==> file.originalFilename.Some? && file.size <= MAX_IMAGE_SIZE
                       && (file.contentType == Some("image/jpeg") || file.contentType == Some("image/png"))
    ensures r.Ok? ==> r.value == (if file.contentType == Some("image/jpeg") then ".jpg" else ".png")
    ensures file.originalFilename.None? ==> r == Err(IO("File name is null."))
    ensures file.originalFilename.Some? && file.size > MAX_IMAGE_SIZE ==> r == Err(IO("File size is too large."))
    ensures file.originalFilename.Some? && file.size <= MAX_IMAGE_SIZE && file.contentType.None? ==>
              r == Err(IO("File type is null."))
    ensures file.originalFilename.Some? && file.size <= MAX_IMAGE_SIZE && file.contentType.Some?
            && file.contentType.value != "image/jpeg" && file.contentType.value != "image/png" ==>
              r == Err(IO("File type is not supported."))
  {
    if file.originalFilename.None? then Err(IO("File name is null."))
    else if file.size > MAX_IMAGE_SIZE then Err(IO("File size is too large."))
    else if file.contentType.None? then Err(IO("File type is null."))
    else if file.contentType.value == "image/jpeg" then Ok(".jpg")
    else if file.contentType.value == "image/png" then Ok(".png")
    else Err(IO("File type is not supported."))
  }

  /** `uploadImage(file, dirPath)`: after every check passes, the file is
      stored at `dirPath + uuid + extension`, and the download URL of that
      name, URL-encoded, is returned. A failed check writes nothing. */
  method UploadImage(store: Backend, file: Upload, dirPath: string, uuid: string) returns (r: Result<string>)
    modifies store
    ensures r.Ok? <==> ImageExtension(file).Ok?
    ensures r.Err? ==> r == Err(ImageExtension(file).error) && store.blobs == old(store.blobs)
    ensures r.Ok? ==> var path := dirPath + uuid + ImageExtension(file).value;
                      store.blobs == old(store.blobs)[path := Blob(file.contentType, file.size)]
                      && r.value == BaseUrl(store.bucket) + UrlEncode(path)
    ensures store.users == old(store.users) && store.docs == old(store.docs)
  {
    var ext :- ImageExtension(file);
    var path := dirPath + uuid + ext;
    store.CreateBlob(path, Blob(file.contentType, file.size));
    r := Ok(BaseUrl(store.bucket) + UrlEncode(path));
  }

  /** The file name `parseFileName` takes from an uploaded image's URL is
      the encoded blob name, whatever the bucket is called: encoding turns
      every slash of the path into `%2F`. */
  lemma UploadedNameParses(bucket: string, path: string)
    requires path != ""
    ensures ParseFileName(BaseUrl(bucket) + UrlEncode(path)) == Ok(UrlEncode(path))
  {
    var prefix := "https://firebasestorage.googleapis.com/v0/b/" + bucket + "/o";
    assert BaseUrl(bucket) + UrlEncode(path) == prefix + ['/'] + UrlEncode(path);
    SplitLast(prefix, '/', UrlEncode(path));
  }
}
