/** Users' training datasets: a row is created first, the client uploads the
    data through a presigned URL whose object key becomes the dataset's path,
    and the size and readiness are recorded afterwards. Every per-dataset
    operation looks the dataset up by id and owner together, so another
    user's dataset is indistinguishable from a missing one. */
module Datasets {
  import opened Common
  import opened Strings
  import opened Storage
  import opened Users

  /** `DatasetStatus`. */
  datatype DatasetStatus = PendingUpload | Uploading | Ready | Processing | Failed | Deleted

  /** A row of the `datasets` table as the service uses it: the object path
      and the size the service reads and writes, the owner by id; timestamps,
      the split ratios and the content metadata are left out. */
  datatype Dataset = Dataset(
    id: Uuid,
    name: string,
    description: Option<string>,
    path: string,
    status: DatasetStatus,
    size: int,
    ownerId: Uuid)

  /** The DATASET_* audit records the service queues. */
  datatype DatasetAudit =
    | Created(actor: Uuid, datasetId: Uuid, name: string, path: string, size: int)
    | UploadUrlGenerated(actor: Uuid, datasetId: Uuid, expiresAt: Time)
    | Downloaded(actor: Uuid, datasetId: Uuid, name: string)
    | Updated(actor: Uuid, datasetId: Uuid, name: string, size: int, path: string)
    | Removed(actor: Uuid, datasetId: Uuid, name: string)

  /** The row after `updateDataset(id, user, size, path)` with a size and a
      path given: the size is recorded, the dataset is READY, and the path is
      replaced only by a non-blank one. */
  function WithUpload(d: Dataset, size: int, path: string): (e: Dataset)
    ensures e.size == size && e.status == Ready
    ensures !IsBlank(path) ==> e.path == path
    ensures IsBlank(path) ==> e.path == d.path
    ensures e.id == d.id && e.name == d.name && e.description == d.description && e.ownerId == d.ownerId
  {
    d.(size := size, status := Ready, path := if IsBlank(path) then d.path else path)
  }

  /** Repeating an update changes nothing further, and a later update with
      a blank path keeps the path already recorded. */
  lemma WithUploadIdempotent(d: Dataset, size: int, path: string, blank: string)
    requires IsBlank(blank)
    ensures WithUpload(WithUpload(d, size, path), size, path) == WithUpload(d, size, path)
    ensures WithUpload(WithUpload(d, size, path), size, blank) == WithUpload(d, size, path)
  {
  }

  /** Two different rows of one owner never share a name (the unique
      constraint on name and owner). */
  predicate NamesUniquePerOwner(ds: map<Uuid, Dataset>) {
    forall a, b :: a in ds && b in ds && a != b && ds[a].ownerId == ds[b].ownerId ==> ds[a].name != ds[b].name
  }

  class DatasetService {
    const users: UserRepository
    /** The `datasets` table, keyed by id. */
    var datasets: map<Uuid, Dataset>
    /** The audit records queued, oldest first. */
    var audit: seq<DatasetAudit>
    /** The presigned-URL lifetimes. */
    const expiry: PresignExpiry

    predicate Valid()
      reads this
    {
      (forall id :: id in datasets ==> datasets[id].id == id) && NamesUniquePerOwner(datasets)
    }

    constructor(users: UserRepository, expiry: PresignExpiry)
      ensures Valid() && this.users == users && datasets == map[] && audit == [] && this.expiry == expiry
    {
      this.users := users;
      datasets := map[];
      audit := [];
      this.expiry := expiry;
    }

    /** `existsByNameAndOwnerId`. */
    predicate NameTaken(name: string, ownerId: Uuid)
      reads this
    {
      exists id :: id in datasets && datasets[id].name == name && datasets[id].ownerId == ownerId
    }

    /** `getDatasetEntityByIdAndOwner`, and `getDatasetById` with it: the
        dataset when it exists and belongs to the user, DATASET_NOT_FOUND
        otherwise. */
    function GetDatasetById(datasetId: Uuid, userId: Uuid): (r: Result<Dataset>)
      reads this
      requires Valid()
      ensures r.Ok? <==> datasetId in datasets && datasets[datasetId].ownerId == userId
      ensures r.Ok? ==> r.value == datasets[datasetId] && r.value.id == datasetId && r.value.ownerId == userId
      ensures r.Err? ==> r.error == DatasetNotFound
    {
      if datasetId in datasets && datasets[datasetId].ownerId == userId then Ok(datasets[datasetId])
      else Err(DatasetNotFound)
    }

    /** `getDatasetsByOwner`: exactly the user's datasets, each once, in the
        unspecified order of the query. */
    method GetDatasetsByOwner(userId: Uuid) returns (r: seq<Dataset>)
      ensures forall d :: d in r <==> d in datasets.Values && d.ownerId == userId
      ensures forall i, j :: 0 <= i < j < |r| ==> r[i] != r[j]
    {
      r := Enumerate(set d | d in datasets.Values && d.ownerId == userId);
    }

    /** `createDataset`: a name the owner already uses, then an unknown owner,
        are refused with nothing saved; a new dataset waits for its upload,
        with an empty path and size 0. */
    method CreateDataset(newId: Uuid, name: string, description: Option<string>, userId: Uuid)
      returns (r: Result<Dataset>)
      requires Valid()
      requires newId !in datasets
      modifies this
      ensures Valid()
      ensures old(NameTaken(name, userId)) ==> r == Err(DatasetNameExists) && unchanged(this)
      ensures !old(NameTaken(name, userId)) && userId !in users.rows ==> r == Err(UserNotFound) && unchanged(this)
      ensures !old(NameTaken(name, userId)) && userId in users.rows ==>
        r == Ok(Dataset(newId, name, description, "", PendingUpload, 0, userId)) &&
        datasets == old(datasets)[newId := r.value] &&
        audit == old(audit) + [Created(userId, newId, name, "", 0)]
    {
      if NameTaken(name, userId) {
        return Err(DatasetNameExists);
      }
      if userId !in users.rows {
        return Err(UserNotFound);
      }
      var d := Dataset(newId, name, description, "", PendingUpload, 0, userId);
      datasets := datasets[newId := d];
      audit := audit + [Created(userId, newId, name, "", 0)];
      r := Ok(d);
    }

    /** `generateUploadUrl`: the dataset's path becomes the key built from
        its id and the extension of its name, and that save stands even when
        signing then fails (the method is not transactional). */
    method GenerateUploadUrl(datasetId: Uuid, userId: Uuid, signer: Signer, now: Time) returns (r: Result<PresignedUrl>)
      requires Valid()
      modifies this
      ensures Valid()
      ensures old(GetDatasetById(datasetId, userId)).Err? ==> r == Err(DatasetNotFound) && unchanged(this)
      ensures old(GetDatasetById(datasetId, userId)).Ok? ==>
        var d := old(datasets[datasetId]);
        var key := DatasetStorageKey(datasetId, Some(d.name));
        datasets == old(datasets)[datasetId := d.(path := key)] &&
        r == Presign(signer, DatasetsBucket, key, Put, expiry, now) &&
        audit == old(audit) + (if r.Ok? then [UploadUrlGenerated(userId, datasetId, r.value.expiresAt)] else [])
      ensures r.Ok? ==> r.value.methodName == "PUT" && r.value.expiresAt == now + expiry.uploadSeconds
    {
      var found := GetDatasetById(datasetId, userId);
      if found.Err? {
        return Err(found.error);
      }
      var d := found.value;
      var key := DatasetStorageKey(datasetId, Some(d.name));
      datasets := datasets[datasetId := d.(path := key)];
      r := Presign(signer, DatasetsBucket, key, Put, expiry, now);
      if r.Ok? {
        audit := audit + [UploadUrlGenerated(userId, datasetId, r.value.expiresAt)];
      }
    }

    /** `generateDownloadUrl`: a GET URL for the dataset's current path. */
    method GenerateDownloadUrl(datasetId: Uuid, userId: Uuid, signer: Signer, now: Time) returns (r: Result<PresignedUrl>)
      requires Valid()
      modifies this
      ensures Valid() && datasets == old(datasets)
      ensures old(GetDatasetById(datasetId, userId)).Err? ==> r == Err(DatasetNotFound) && audit == old(audit)
      ensures old(GetDatasetById(datasetId, userId)).Ok? ==>
        var d := datasets[datasetId];
        r == Presign(signer, DatasetsBucket, d.path, Get, expiry, now) &&
        audit == old(audit) + (if r.Ok? then [Downloaded(userId, datasetId, d.name)] else [])
      ensures r.Ok? ==> r.value.methodName == "GET" && r.value.expiresAt == now + expiry.downloadSeconds
    {
      var found := GetDatasetById(datasetId, userId);
      if found.Err? {
        return Err(found.error);
      }
      var d := found.value;
      r := Presign(signer, DatasetsBucket, d.path, Get, expiry, now);
      if r.Ok? {
        audit := audit + [Downloaded(userId, datasetId, d.name)];
      }
    }

    /** `deleteDataset`: the stored object is removed first; when that fails
        the row stays and DATASET_DELETE_NOT_ALLOWED is raised. `removed`
        tells whether the object store accepted the removal of an object. */
    method DeleteDataset(datasetId: Uuid, userId: Uuid, removed: (Bucket, string) -> bool) returns (r: Outcome)
      requires Valid()
      modifies this
      ensures Valid()
      ensures old(GetDatasetById(datasetId, userId)).Err? ==> r == Raised(DatasetNotFound) && unchanged(this)
      ensures old(GetDatasetById(datasetId, userId)).Ok? ==>
        var d := old(datasets[datasetId]);
        if !removed(DatasetsBucket, d.path) then
          r == Raised(DatasetDeleteNotAllowed) && unchanged(this)
        else
          r == Done && datasets == old(datasets) - {datasetId} &&
          audit == old(audit) + [Removed(userId, datasetId, d.name)]
    {
      var found := GetDatasetById(datasetId, userId);
      if found.Err? {
        return Raised(found.error);
      }
      var d := found.value;
      if !removed(DatasetsBucket, d.path) {
        return Raised(DatasetDeleteNotAllowed);
      }
      datasets := datasets - {datasetId};
      audit := audit + [Removed(userId, datasetId, d.name)];
      r := Done;
    }

    /** `updateDataset(id, user, size, path)`: records the size, marks the
        dataset READY and takes a non-blank path. The audit details are an
        immutable map that refuses a null value, so a call without a size or
        without a path fails there and the transaction rolls back. */
    method UpdateDataset(datasetId: Uuid, userId: Uuid, size: Option<int>, path: Option<string>) returns (r: Result<Dataset>)
      requires Valid()
      modifies this
      ensures Valid()
      ensures old(GetDatasetById(datasetId, userId)).Err? ==> r == Err(DatasetNotFound) && unchanged(this)
      ensures old(GetDatasetById(datasetId, userId)).Ok? && (size.None? || path.None?) ==>
        r == Err(InternalServerError) && unchanged(this)
      ensures old(GetDatasetById(datasetId, userId)).Ok? && size.Some? && path.Some? ==>
        var e := WithUpload(old(datasets[datasetId]), size.value, path.value);
        r == Ok(e) && datasets == old(datasets)[datasetId := e] &&
        audit == old(audit) + [Updated(userId, datasetId, e.name, size.value, path.value)]
    {
      var found := GetDatasetById(datasetId, userId);
      if found.Err? {
        return Err(found.error);
      }
      var before := datasets;
      var d := found.value;
      d := d.(status := Ready);
      if size.Some? {
        d := d.(size := size.value);
      }
      if path.Some? && !IsBlank(path.value) {
        d := d.(path := path.value);
      }
      datasets := datasets[datasetId := d];
      if size.None? || path.None? {
        datasets := before;
        return Err(InternalServerError);
      }
      audit := audit + [Updated(userId, datasetId, d.name, size.value, path.value)];
      r := Ok(d);
    }
  }
}
