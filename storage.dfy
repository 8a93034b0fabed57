/** The object-storage service: file-extension extraction, the storage keys
    of datasets, checkpoints and files, the presigned-URL request and the task
    log lookup. The MinIO client itself is an oracle: the model receives what
    it answered. */
module Storage {
  import opened Common
  import opened Strings

  /** `getFileExtension`: the suffix from the last dot, or "" for a missing
      or empty name, a name without a dot, a name whose only dot is its first
      character, and a name that ends with a dot. */
  function FileExtension(filename: Option<string>): (ext: string)
    ensures ext == "" || (ext[0] == '.' && |ext| >= 2 && '.' !in ext[1..])
    ensures filename.Some? ==> |ext| <= |filename.value| && ext == filename.value[|filename.value| - |ext|..]
  {
    match filename
    case None => ""
    case Some(name) =>
      if |name| == 0 then ""
      else
        var lastDot := LastIndexOf(name, '.');
        if lastDot <= 0 then ""
        else if lastDot == |name| - 1 then ""
        else name[lastDot..]
  }

  /** A name made of a non-empty stem, a dot and a dot-free, non-empty
      extension keeps exactly that extension ("archive.tar" + "." + "gz"
      gives ".gz"). */
  lemma ExtensionOfJoinedName(stem: string, ext: string)
    requires |stem| > 0 && |ext| > 0 && '.' !in ext
    ensures FileExtension(Some(stem + "." + ext)) == "." + ext
  {
    var name := stem + "." + ext;
    assert name == stem + ['.'] + ext;
    LastIndexOfJoined(stem, '.', ext);
    assert name[|stem|..] == "." + ext;
  }

  /** A name whose only dot is its first character has no extension. */
  lemma HiddenFileHasNoExtension(rest: string)
    requires '.' !in rest
    ensures FileExtension(Some("." + rest)) == ""
  {
    var name := "." + rest;
    var k := LastIndexOf(name, '.');
    assert forall j :: 0 < j < |name| ==> name[j] == rest[j - 1];
  }

  /** `generateDatasetStorageKey`. */
  function DatasetStorageKey(datasetId: Uuid, filename: Option<string>): string {
    "datasets/" + datasetId + "/data" + FileExtension(filename)
  }

  /** `generateCheckpointStorageKey`: the file name is accepted but unused. */
  function CheckpointStorageKey(checkpointId: Uuid, filename: Option<string>): string {
    "checkpoints/" + checkpointId + "/model.zip"
  }

  /** `generateFileStorageKey`. */
  function FileStorageKey(fileId: Uuid, filename: Option<string>): string {
    "files/" + fileId + "/file" + FileExtension(filename)
  }

  /** The layout of the object keys: each kind of object is filed under its
      own prefix and id; dataset and file objects keep the extension of the
      uploaded name, and a checkpoint is always "model.zip", whatever the
      name. */
  lemma StorageKeyLayout(id: Uuid, filename: Option<string>)
    ensures StartsWith(DatasetStorageKey(id, filename), "datasets/" + id + "/data")
    ensures EndsWith(DatasetStorageKey(id, filename), FileExtension(filename))
    ensures StartsWith(FileStorageKey(id, filename), "files/" + id + "/file")
    ensures EndsWith(FileStorageKey(id, filename), FileExtension(filename))
    ensures StartsWith(CheckpointStorageKey(id, filename), "checkpoints/" + id)
    ensures EndsWith(CheckpointStorageKey(id, filename), "/model.zip")
    ensures CheckpointStorageKey(id, filename) == CheckpointStorageKey(id, None)
  {
    JoinedParts("datasets/" + id + "/data", FileExtension(filename));
    JoinedParts("files/" + id + "/file", FileExtension(filename));
    JoinedParts("checkpoints/" + id, "/model.zip");
  }

  /** The canonical text of a UUID holds no '/'. */
  predicate IsIdText(id: Uuid) {
    '/' !in id
  }

  /** Two keys built as prefix, id, a separator part starting with '/' and a
      tail agree only when the ids agree. */
  lemma {:induction false} SlashDelimitedIdInjective(prefix: string, a: string, b: string, mid: string, ta: string, tb: string)
    requires '/' !in a && '/' !in b
    requires |mid| > 0 && mid[0] == '/'
    requires prefix + a + mid + ta == prefix + b + mid + tb
    ensures a == b
  {
    var ka, kb := prefix + a + mid + ta, prefix + b + mid + tb;
    var p := |prefix|;
    assert ka[p..] == a + (mid + ta);
    assert kb[p..] == b + (mid + tb);
    var u, v := a + (mid + ta), b + (mid + tb);
    assert u == v;
    assert forall i :: 0 <= i < |a| ==> u[i] == a[i];
    assert forall i :: 0 <= i < |b| ==> v[i] == b[i];
    assert u[|a|] == '/' && v[|b|] == '/';
    assert |a| == |b|;
    assert a == u[..|a|];
    assert b == v[..|b|];
  }

  /** Distinct datasets never share a storage object. */
  lemma DatasetKeysDistinct(a: Uuid, b: Uuid, fa: Option<string>, fb: Option<string>)
    requires IsIdText(a) && IsIdText(b) && a != b
    ensures DatasetStorageKey(a, fa) != DatasetStorageKey(b, fb)
  {
    if DatasetStorageKey(a, fa) == DatasetStorageKey(b, fb) {
      SlashDelimitedIdInjective("datasets/", a, b, "/data", FileExtension(fa), FileExtension(fb));
    }
  }

  /** Distinct files never share a storage object. */
  lemma FileKeysDistinct(a: Uuid, b: Uuid, fa: Option<string>, fb: Option<string>)
    requires IsIdText(a) && IsIdText(b) && a != b
    ensures FileStorageKey(a, fa) != FileStorageKey(b, fb)
  {
    if FileStorageKey(a, fa) == FileStorageKey(b, fb) {
      SlashDelimitedIdInjective("files/", a, b, "/file", FileExtension(fa), FileExtension(fb));
    }
  }

  /** A checkpoint key depends on the id alone, and distinct checkpoints get
      distinct keys. */
  lemma CheckpointKeysDistinct(a: Uuid, b: Uuid, fa: Option<string>, fb: Option<string>)
    requires IsIdText(a) && IsIdText(b)
    ensures CheckpointStorageKey(a, fa) == CheckpointStorageKey(a, fb)
    ensures a != b ==> CheckpointStorageKey(a, fa) != CheckpointStorageKey(b, fb)
  {
    if a != b && CheckpointStorageKey(a, fa) == CheckpointStorageKey(b, fb) {
      var ka, kb := CheckpointStorageKey(a, fa), CheckpointStorageKey(b, fb);
      assert ka + "" == ka && kb + "" == kb;
      SlashDelimitedIdInjective("checkpoints/", a, b, "/model.zip", "", "");
    }
  }

  /** The request methods of the MinIO client. */
  datatype HttpMethod = Get | Head | Post | Put | Delete

  /** Presigned-URL lifetimes, in seconds, from the storage configuration. */
  datatype PresignExpiry = PresignExpiry(uploadSeconds: int, downloadSeconds: int)

  /** What the MinIO client answered to a signing request. */
  datatype SignReply = SignThrew | Signed(url: Option<string>)

  /** `PresignedUrlResponse`: the URL, the method label and the expiry. */
  datatype PresignedUrl = PresignedUrl(url: Option<string>, methodName: string, expiresAt: Time)

  /** `generatePresignedUrl`: an upload uses the upload lifetime and the label
      "PUT"; any other method the download lifetime and the label "GET". A
      client failure raises PRESIGNED_URL_GENERATION_FAILED. */
  function PresignedUrlFor(verb: HttpMethod, expiry: PresignExpiry, reply: SignReply, now: Time): (r: Result<PresignedUrl>)
    ensures reply.SignThrew? <==> r == Err(PresignedUrlGenerationFailed)
    ensures r.Ok? ==> r.value.url == reply.url
    ensures r.Ok? && verb == Put ==> r.value.methodName == "PUT" && r.value.expiresAt == now + expiry.uploadSeconds
    ensures r.Ok? && verb != Put ==> r.value.methodName == "GET" && r.value.expiresAt == now + expiry.downloadSeconds
  {
    match reply
    case SignThrew => Err(PresignedUrlGenerationFailed)
    case Signed(url) =>
      var seconds := if verb == Put then expiry.uploadSeconds else expiry.downloadSeconds;
      Ok(PresignedUrl(url, if verb == Put then "PUT" else "GET", now + seconds))
  }

  /** The buckets the services sign URLs in. */
  datatype Bucket = DatasetsBucket | CheckpointsBucket | FilesBucket | LogsBucket

  /** The MinIO client's answer to a request to sign `verb` on an object key
      in a bucket. */
  type Signer = (Bucket, string, HttpMethod) -> SignReply

  /** `generatePresignedUrl` for one object, asking `signer`. */
  function Presign(signer: Signer, bucket: Bucket, key: string, verb: HttpMethod, expiry: PresignExpiry, now: Time): Result<PresignedUrl> {
    PresignedUrlFor(verb, expiry, signer(bucket, key, verb), now)
  }

  /** A URL a caller can use: present and not blank. */
  predicate HasUsableUrl(p: PresignedUrl) {
    p.url.Some? && !IsBlank(p.url.value)
  }

  /** A signed URL that the calling service also checks for being usable: a
      missing or blank URL becomes INTERNAL_SERVER_ERROR. */
  function CheckedPresign(signer: Signer, bucket: Bucket, key: string, verb: HttpMethod, expiry: PresignExpiry, now: Time): (r: Result<PresignedUrl>)
    ensures signer(bucket, key, verb).SignThrew? <==> r == Err(PresignedUrlGenerationFailed)
    ensures signer(bucket, key, verb).Signed? && !(signer(bucket, key, verb).url.Some? && !IsBlank(signer(bucket, key, verb).url.value))
      <==> r == Err(InternalServerError)
    ensures r.Ok? ==> HasUsableUrl(r.value) && Signed(r.value.url) == signer(bucket, key, verb)
    ensures r.Ok? && verb == Put ==> r.value.methodName == "PUT" && r.value.expiresAt == now + expiry.uploadSeconds
    ensures r.Ok? && verb != Put ==> r.value.methodName == "GET" && r.value.expiresAt == now + expiry.downloadSeconds
  {
    match Presign(signer, bucket, key, verb, expiry, now)
    case Err(e) => Err(e)
    case Ok(p) => if HasUsableUrl(p) then Ok(p) else Err(InternalServerError)
  }

  /** The object that holds a task's log in the logs bucket. */
  function TaskLogObjectName(taskId: Uuid): (name: string)
    ensures StartsWith(name, taskId) && |name| == |taskId| + 4 && name[|taskId|..] == ".log"
  {
    taskId + ".log"
  }

  /** `getTaskLogs`: the object's text, or a fixed notice when the object
      cannot be read; it never raises. `fetch` is the object store's answer
      for an object name (`None` when the read fails). */
  function TaskLogs(taskId: Uuid, fetch: string -> Option<string>): (log: string)
    ensures fetch(taskId + ".log").Some? ==> log == fetch(taskId + ".log").value
    ensures fetch(taskId + ".log").None? ==> log == "No logs available for task " + taskId
  {
    match fetch(TaskLogObjectName(taskId))
    case Some(text) => text
    case None => "No logs available for task " + taskId
  }
}
