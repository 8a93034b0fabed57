/** Stand-alone uploaded files: a metadata row is created first, the client
    then uploads and downloads the content through presigned URLs, and may
    mark the upload as done. Only the file's creator may sign URLs for it or
    mark it. */
module StoredFiles {
  import opened Common
  import opened Strings
  import opened Storage

  /** The upload state of a file. */
  datatype FileStatus = PendingUpload | Uploaded

  /** A row of the `files` table; the creation timestamp is left out. */
  datatype StoredFile = StoredFile(
    id: Uuid,
    storageKey: string,
    originalFilename: Option<string>,
    contentType: Option<string>,
    sizeBytes: Option<int>,
    status: FileStatus,
    createdBy: Uuid)

  /** `CreateFileRequest`. */
  datatype CreateFileRequest = CreateFileRequest(originalFilename: Option<string>, contentType: Option<string>)

  /** The audit records the service queues. */
  datatype FileAudit =
    | UploadUrlGenerated(actor: Uuid, fileId: Uuid, storageKey: string, originalFilename: string)
    | UploadCompleted(actor: Uuid, fileId: Uuid, storageKey: string, sizeBytes: int, status: FileStatus)

  /** `assertOwnerOrThrow` lets the call through: a user is given and is
      the file's creator. */
  predicate OwnedBy(f: StoredFile, userId: Option<Uuid>) {
    userId.Some? && f.createdBy == userId.value
  }

  /** A row stored under `id`: it carries that id, its key is the one built
      from the id and the original name, and a recorded size is positive. */
  predicate GoodRow(id: Uuid, f: StoredFile) {
    f.id == id && IsIdText(id) &&
    f.storageKey == FileStorageKey(id, f.originalFilename) &&
    (f.sizeBytes.None? || f.sizeBytes.value > 0)
  }

  /** Every row of the table is good. */
  predicate GoodTable(files: map<Uuid, StoredFile>) {
    forall id :: id in files ==> GoodRow(id, files[id])
  }

  /** Storing a good row keeps the table good. */
  lemma StoreKeepsGood(files: map<Uuid, StoredFile>, id: Uuid, f: StoredFile)
    requires GoodTable(files) && GoodRow(id, f)
    ensures GoodTable(files[id := f])
  {
  }

  /** The row after `markUploaded`: status UPLOADED, and the size replaced
      only by a given positive size. */
  function MarkedUploaded(f: StoredFile, sizeBytes: Option<int>): (g: StoredFile)
    ensures g.status == Uploaded
    ensures sizeBytes.Some? && sizeBytes.value > 0 ==> g.sizeBytes == sizeBytes
    ensures !(sizeBytes.Some? && sizeBytes.value > 0) ==> g.sizeBytes == f.sizeBytes
    ensures g.id == f.id && g.storageKey == f.storageKey && g.originalFilename == f.originalFilename
    ensures g.contentType == f.contentType && g.createdBy == f.createdBy
  {
    var size := if sizeBytes.Some? && sizeBytes.value > 0 then sizeBytes else f.sizeBytes;
    f.(status := Uploaded, sizeBytes := size)
  }

  /** Marking twice with the same size is marking once, and a later mark
      without a usable size keeps the size already recorded. */
  lemma MarkedUploadedIdempotent(f: StoredFile, sizeBytes: Option<int>, later: Option<int>)
    ensures MarkedUploaded(MarkedUploaded(f, sizeBytes), sizeBytes) == MarkedUploaded(f, sizeBytes)
    ensures !(later.Some? && later.value > 0) ==>
      MarkedUploaded(MarkedUploaded(f, sizeBytes), later) == MarkedUploaded(f, sizeBytes)
  {
  }

  class FileService {
    /** The `files` table, keyed by id. */
    var files: map<Uuid, StoredFile>
    /** The audit records queued, oldest first. */
    var audit: seq<FileAudit>
    /** The presigned-URL lifetimes. */
    const expiry: PresignExpiry

    /** Rows are keyed by their id; a storage key is the one built from the
        row's id and name, and is never rewritten; a recorded size is
        positive. */
    predicate Valid()
      reads this
    {
      GoodTable(files)
    }

    constructor(expiry: PresignExpiry)
      ensures Valid() && files == map[] && audit == [] && this.expiry == expiry
    {
      files := map[];
      audit := [];
      this.expiry := expiry;
    }

    /** `createFile`: without a user it is UNAUTHORIZED and nothing is saved.
        The row is saved with an empty key, then its key is built from the
        new id and the original name and saved again. The audit details are
        an immutable map that refuses a null value, so a request without an
        original name fails there and the transaction rolls back. */
    method CreateFile(newId: Uuid, request: Option<CreateFileRequest>, userId: Option<Uuid>)
      returns (r: Result<StoredFile>)
      requires Valid()
      requires newId !in files && IsIdText(newId)
      modifies this
      ensures Valid()
      ensures userId.None? ==> r == Err(Unauthorized) && unchanged(this)
      ensures userId.Some? ==>
        var name := if request.Some? then request.value.originalFilename else None;
        var kind := if request.Some? then request.value.contentType else None;
        if name.None? then
          r == Err(InternalServerError) && unchanged(this)
        else
          r == Ok(StoredFile(newId, FileStorageKey(newId, name), name, kind, None, PendingUpload, userId.value)) &&
          files == old(files)[newId := r.value] &&
          audit == old(audit) + [UploadUrlGenerated(userId.value, newId, r.value.storageKey, name.value)]
    {
      if userId.None? {
        return Err(Unauthorized);
      }
      var before := files;
      var name := if request.Some? then request.value.originalFilename else None;
      var kind := if request.Some? then request.value.contentType else None;
      var f := StoredFile(newId, "", name, kind, None, PendingUpload, userId.value);
      files := files[newId := f];
      f := f.(storageKey := FileStorageKey(newId, f.originalFilename));
      files := files[newId := f];
      assert files == before[newId := f];
      if f.originalFilename.None? {
        files := before;
        return Err(InternalServerError);
      }
      StoreKeepsGood(before, newId, f);
      audit := audit + [UploadUrlGenerated(userId.value, newId, f.storageKey, f.originalFilename.value)];
      r := Ok(f);
    }

    /** `getFile`: RESOURCE_NOT_FOUND for an unknown id. */
    function GetFile(fileId: Uuid): (r: Result<StoredFile>)
      reads this
      requires Valid()
      ensures fileId in files <==> r.Ok?
      ensures r.Ok? ==> r.value.id == fileId && r.value in files.Values
      ensures r.Err? ==> r.error == ResourceNotFound
    {
      if fileId in files then Ok(files[fileId]) else Err(ResourceNotFound)
    }

    /** The lookup and the owner check every per-file operation starts
        with. */
    function OwnedFile(fileId: Uuid, userId: Option<Uuid>): (r: Result<StoredFile>)
      reads this
      requires Valid()
      ensures fileId !in files <==> r == Err(ResourceNotFound)
      ensures fileId in files && !OwnedBy(files[fileId], userId) <==> r == Err(Unauthorized)
      ensures r.Ok? ==> r.value == files[fileId] && userId == Some(r.value.createdBy)
    {
      match GetFile(fileId)
      case Err(e) => Err(e)
      case Ok(f) => if OwnedBy(f, userId) then Ok(f) else Err(Unauthorized)
    }

    /** `generateUploadUrl`: a PUT URL for the key built from the id and the
        original name; a missing or blank URL is INTERNAL_SERVER_ERROR. */
    function GenerateUploadUrl(fileId: Uuid, userId: Option<Uuid>, signer: Signer, now: Time): (r: Result<PresignedUrl>)
      reads this
      requires Valid()
      ensures fileId !in files ==> r == Err(ResourceNotFound)
      ensures fileId in files && !OwnedBy(files[fileId], userId) ==> r == Err(Unauthorized)
      ensures r.Ok? ==>
        OwnedBy(files[fileId], userId) && HasUsableUrl(r.value) && r.value.methodName == "PUT" &&
        r.value.expiresAt == now + expiry.uploadSeconds &&
        Signed(r.value.url) == signer(FilesBucket, files[fileId].storageKey, Put)
    {
      match OwnedFile(fileId, userId)
      case Err(e) => Err(e)
      case Ok(f) => CheckedPresign(signer, FilesBucket, FileStorageKey(fileId, f.originalFilename), Put, expiry, now)
    }

    /** `generateDownloadUrl`: a GET URL for the stored key. */
    function GenerateDownloadUrl(fileId: Uuid, userId: Option<Uuid>, signer: Signer, now: Time): (r: Result<PresignedUrl>)
      reads this
      requires Valid()
      ensures fileId !in files ==> r == Err(ResourceNotFound)
      ensures fileId in files && !OwnedBy(files[fileId], userId) ==> r == Err(Unauthorized)
      ensures r.Ok? ==>
        OwnedBy(files[fileId], userId) && HasUsableUrl(r.value) && r.value.methodName == "GET" &&
        r.value.expiresAt == now + expiry.downloadSeconds &&
        Signed(r.value.url) == signer(FilesBucket, files[fileId].storageKey, Get)
    {
      match OwnedFile(fileId, userId)
      case Err(e) => Err(e)
      case Ok(f) => CheckedPresign(signer, FilesBucket, f.storageKey, Get, expiry, now)
    }

    /** `markUploaded`: for the creator only. The audit details refuse a null
        size, so a file that has never had a positive size and is not given
        one fails with INTERNAL_SERVER_ERROR and the update rolls back. */
    method MarkUploaded(fileId: Uuid, sizeBytes: Option<int>, userId: Option<Uuid>) returns (r: Result<StoredFile>)
      requires Valid()
      modifies this
      ensures Valid()
      ensures fileId !in old(files) ==> r == Err(ResourceNotFound) && unchanged(this)
      ensures fileId in old(files) && !OwnedBy(old(files)[fileId], userId) ==> r == Err(Unauthorized) && unchanged(this)
      ensures fileId in old(files) && OwnedBy(old(files)[fileId], userId) ==>
        var g := MarkedUploaded(old(files)[fileId], sizeBytes);
        if g.sizeBytes.None? then
          r == Err(InternalServerError) && unchanged(this)
        else
          r == Ok(g) && files == old(files)[fileId := g] &&
          audit == old(audit) + [UploadCompleted(userId.value, fileId, g.storageKey, g.sizeBytes.value, Uploaded)]
    {
      var found := OwnedFile(fileId, userId);
      if found.Err? {
        return Err(found.error);
      }
      var before := files;
      var f := found.value;
      f := f.(status := Uploaded);
      if sizeBytes.Some? && sizeBytes.value > 0 {
        f := f.(sizeBytes := sizeBytes);
      }
      assert GoodRow(fileId, before[fileId]);
      files := files[fileId := f];
      if f.sizeBytes.None? {
        files := before;
        return Err(InternalServerError);
      }
      StoreKeepsGood(before, fileId, f);
      audit := audit + [UploadCompleted(userId.value, fileId, f.storageKey, f.sizeBytes.value, f.status)];
      r := Ok(f);
    }

    /** Distinct files never share a storage object, so uploading one never
        overwrites another. */
    lemma StorageKeysDistinct(a: Uuid, b: Uuid)
      requires Valid()
      requires a in files && b in files && a != b
      ensures files[a].storageKey != files[b].storageKey
    {
      assert GoodRow(a, files[a]) && GoodRow(b, files[b]);
      FileKeysDistinct(a, b, files[a].originalFilename, files[b].originalFilename);
    }
  }
}
