/** Fine-tuned model checkpoints that the training service uploads. A
    record is created first; its object key depends on its id alone; the
    upload is confirmed exactly once, and only then can the owner see the
    checkpoint in listings or download it. */
module ModelCheckpoints {
  import opened Common
  import opened Storage
  import opened Users

  /** A row of the `model_checkpoints` table; base model, dataset and owner
      by id, the timestamp left out. */
  datatype ModelCheckpoint = ModelCheckpoint(
    id: Uuid,
    name: string,
    description: Option<string>,
    storageKey: string,
    fileSize: Option<int>,
    baseModelId: Uuid,
    datasetId: Uuid,
    trainingJobId: Option<Uuid>,
    ownerId: Uuid,
    uploadComplete: bool)

  /** The CHECKPOINT_* and MODEL_DELETE audit records. */
  datatype CheckpointAudit =
    | UploadCompleted(actor: Uuid, checkpointId: Uuid, fileSize: int)
    | DownloadUrlGenerated(actor: Uuid, checkpointId: Uuid, expiresAt: Time)
    | Removed(actor: Uuid, checkpointId: Uuid, name: string)

  /** A checkpoint's object key: the same for every file name, so it is a
      function of the id. */
  function KeyOf(checkpointId: Uuid): string {
    CheckpointStorageKey(checkpointId, None)
  }

  class ModelCheckpointService {
    const users: UserRepository
    /** The ids of the registered base models and of the datasets. */
    const baseModels: set<Uuid>
    const datasets: set<Uuid>
    /** The `model_checkpoints` table, keyed by id. */
    var checkpoints: map<Uuid, ModelCheckpoint>
    /** The audit records queued, oldest first. */
    var audit: seq<CheckpointAudit>
    /** The presigned-URL lifetimes. */
    const expiry: PresignExpiry

    /** Rows are keyed by id and keep the key built from it; one owner
        never has two checkpoints of one name; a confirmed upload has a
        size. */
    predicate Valid()
      reads this
    {
      (forall id :: id in checkpoints ==>
        checkpoints[id].id == id && checkpoints[id].storageKey == KeyOf(id) &&
        (checkpoints[id].uploadComplete ==> checkpoints[id].fileSize.Some?)) &&
      (forall a, b :: a in checkpoints && b in checkpoints && a != b && checkpoints[a].ownerId == checkpoints[b].ownerId ==>
        checkpoints[a].name != checkpoints[b].name)
    }

    constructor(users: UserRepository, baseModels: set<Uuid>, datasets: set<Uuid>, expiry: PresignExpiry)
      ensures Valid() && this.users == users && this.baseModels == baseModels && this.datasets == datasets
      ensures checkpoints == map[] && audit == [] && this.expiry == expiry
    {
      this.users := users;
      this.baseModels := baseModels;
      this.datasets := datasets;
      checkpoints := map[];
      audit := [];
      this.expiry := expiry;
    }

    /** `existsByNameAndOwnerId`. */
    predicate NameTaken(name: string, ownerId: Uuid)
      reads this
    {
      exists id :: id in checkpoints && checkpoints[id].name == name && checkpoints[id].ownerId == ownerId
    }

    /** `getCheckpointEntityByIdAndOwner`, and `getCheckpointById` with it:
        CHECKPOINT_NOT_FOUND unless the checkpoint exists and is the
        user's. */
    function GetCheckpointById(checkpointId: Uuid, userId: Uuid): (r: Result<ModelCheckpoint>)
      reads this
      requires Valid()
      ensures r.Ok? <==> checkpointId in checkpoints && checkpoints[checkpointId].ownerId == userId
      ensures r.Ok? ==> r.value == checkpoints[checkpointId] && r.value.id == checkpointId && r.value.ownerId == userId
      ensures r.Err? ==> r.error == CheckpointNotFound
    {
      if checkpointId in checkpoints && checkpoints[checkpointId].ownerId == userId then Ok(checkpoints[checkpointId])
      else Err(CheckpointNotFound)
    }

    /** `getCheckpointsByOwner`: only the user's checkpoints whose upload is
        confirmed, each once. */
    method GetCheckpointsByOwner(userId: Uuid) returns (r: seq<ModelCheckpoint>)
      ensures forall c :: c in r <==> c in checkpoints.Values && c.ownerId == userId && c.uploadComplete
      ensures forall i, j :: 0 <= i < j < |r| ==> r[i] != r[j]
    {
      r := Enumerate(set c | c in checkpoints.Values && c.ownerId == userId && c.uploadComplete);
    }

    /** `createCheckpoint`: a name the owner already uses, an unknown owner,
        an unknown base model and an unknown dataset are refused in that
        order with nothing saved; a new checkpoint awaits its upload, under
        the key built from its id. */
    method CreateCheckpoint(newId: Uuid, name: string, description: Option<string>, baseModelId: Uuid,
                            datasetId: Uuid, trainingJobId: Option<Uuid>, userId: Uuid)
      returns (r: Result<ModelCheckpoint>)
      requires Valid()
      requires newId !in checkpoints
      modifies this
      ensures Valid()
      ensures old(NameTaken(name, userId)) ==> r == Err(ModelNameExists) && unchanged(this)
      ensures !old(NameTaken(name, userId)) && userId !in users.rows ==> r == Err(UserNotFound) && unchanged(this)
      ensures !old(NameTaken(name, userId)) && userId in users.rows && baseModelId !in baseModels ==>
        r == Err(ModelNotFound) && unchanged(this)
      ensures !old(NameTaken(name, userId)) && userId in users.rows && baseModelId in baseModels && datasetId !in datasets ==>
        r == Err(DatasetNotFound) && unchanged(this)
      ensures r.Ok? <==> !old(NameTaken(name, userId)) && userId in users.rows && baseModelId in baseModels && datasetId in datasets
      ensures r.Ok? ==>
        r.value == ModelCheckpoint(newId, name, description, KeyOf(newId), None, baseModelId, datasetId, trainingJobId, userId, false) &&
        checkpoints == old(checkpoints)[newId := r.value] && audit == old(audit)
    {
      if NameTaken(name, userId) {
        return Err(ModelNameExists);
      }
      if userId !in users.rows {
        return Err(UserNotFound);
      }
      if baseModelId !in baseModels {
        return Err(ModelNotFound);
      }
      if datasetId !in datasets {
        return Err(DatasetNotFound);
      }
      var c := ModelCheckpoint(newId, name, description, "", None, baseModelId, datasetId, trainingJobId, userId, false);
      c := c.(storageKey := KeyOf(newId));
      checkpoints := checkpoints[newId := c];
      r := Ok(c);
    }

    /** `generateUploadUrl` (for the training service, so not owner-scoped):
        an unknown id is CHECKPOINT_NOT_FOUND and a confirmed upload is
        VALIDATION_FAILED; otherwise a PUT URL for the checkpoint's key. */
    function GenerateUploadUrl(checkpointId: Uuid, signer: Signer, now: Time): (r: Result<PresignedUrl>)
      reads this
      requires Valid()
      ensures checkpointId !in checkpoints ==> r == Err(CheckpointNotFound)
      ensures checkpointId in checkpoints && checkpoints[checkpointId].uploadComplete ==> r == Err(ValidationFailed)
      ensures checkpointId in checkpoints && !checkpoints[checkpointId].uploadComplete ==>
        r == Presign(signer, CheckpointsBucket, checkpoints[checkpointId].storageKey, Put, expiry, now)
      ensures r.Ok? ==> r.value.methodName == "PUT" && r.value.expiresAt == now + expiry.uploadSeconds
    {
      if checkpointId !in checkpoints then Err(CheckpointNotFound)
      else if checkpoints[checkpointId].uploadComplete then Err(ValidationFailed)
      else Presign(signer, CheckpointsBucket, KeyOf(checkpointId), Put, expiry, now)
    }

    /** `confirmUpload` is one-shot: the first call records the size and
        completes the upload; any later call is VALIDATION_FAILED and
        changes nothing. The audit details refuse a null size, so a
        confirmation without one rolls back. */
    method ConfirmUpload(checkpointId: Uuid, fileSize: Option<int>) returns (r: Result<ModelCheckpoint>)
      requires Valid()
      modifies this
      ensures Valid()
      ensures checkpointId !in old(checkpoints) ==> r == Err(CheckpointNotFound) && unchanged(this)
      ensures checkpointId in old(checkpoints) && old(checkpoints)[checkpointId].uploadComplete ==>
        r == Err(ValidationFailed) && unchanged(this)
      ensures checkpointId in old(checkpoints) && !old(checkpoints)[checkpointId].uploadComplete ==>
        var c := old(checkpoints)[checkpointId];
        if fileSize.None? then
          r == Err(InternalServerError) && unchanged(this)
        else
          r == Ok(c.(uploadComplete := true, fileSize := fileSize)) &&
          checkpoints == old(checkpoints)[checkpointId := r.value] &&
          audit == old(audit) + [UploadCompleted(c.ownerId, checkpointId, fileSize.value)]
    {
      if checkpointId !in checkpoints {
        return Err(CheckpointNotFound);
      }
      var c := checkpoints[checkpointId];
      if c.uploadComplete {
        return Err(ValidationFailed);
      }
      var before := checkpoints;
      c := c.(uploadComplete := true, fileSize := fileSize);
      checkpoints := checkpoints[checkpointId := c];
      if fileSize.None? {
        checkpoints := before;
        return Err(InternalServerError);
      }
      audit := audit + [UploadCompleted(c.ownerId, checkpointId, fileSize.value)];
      r := Ok(c);
    }

    /** `generateDownloadUrl`: CHECKPOINT_NOT_FOUND unless the checkpoint is
        the user's and its upload is confirmed; otherwise a GET URL for its
        key. */
    method GenerateDownloadUrl(checkpointId: Uuid, userId: Uuid, signer: Signer, now: Time) returns (r: Result<PresignedUrl>)
      requires Valid()
      modifies this
      ensures Valid() && checkpoints == old(checkpoints)
      ensures old(GetCheckpointById(checkpointId, userId)).Err? || !checkpoints[checkpointId].uploadComplete ==>
        r == Err(CheckpointNotFound) && audit == old(audit)
      ensures old(GetCheckpointById(checkpointId, userId)).Ok? && checkpoints[checkpointId].uploadComplete ==>
        r == Presign(signer, CheckpointsBucket, checkpoints[checkpointId].storageKey, Get, expiry, now) &&
        audit == old(audit) + (if r.Ok? then [DownloadUrlGenerated(userId, checkpointId, r.value.expiresAt)] else [])
      ensures r.Ok? ==> r.value.methodName == "GET" && r.value.expiresAt == now + expiry.downloadSeconds
    {
      var found := GetCheckpointById(checkpointId, userId);
      if found.Err? {
        return Err(found.error);
      }
      var c := found.value;
      if !c.uploadComplete {
        return Err(CheckpointNotFound);
      }
      r := Presign(signer, CheckpointsBucket, c.storageKey, Get, expiry, now);
      if r.Ok? {
        audit := audit + [DownloadUrlGenerated(userId, checkpointId, r.value.expiresAt)];
      }
    }

    /** `deleteCheckpoint`: removes the user's checkpoint and no other. */
    method DeleteCheckpoint(checkpointId: Uuid, userId: Uuid) returns (r: Outcome)
      requires Valid()
      modifies this
      ensures Valid()
      ensures old(GetCheckpointById(checkpointId, userId)).Err? ==> r == Raised(CheckpointNotFound) && unchanged(this)
      ensures old(GetCheckpointById(checkpointId, userId)).Ok? ==>
        r == Done && checkpoints == old(checkpoints) - {checkpointId} &&
        audit == old(audit) + [Removed(userId, checkpointId, old(checkpoints)[checkpointId].name)]
    {
      var found := GetCheckpointById(checkpointId, userId);
      if found.Err? {
        return Raised(found.error);
      }
      checkpoints := checkpoints - {checkpointId};
      audit := audit + [Removed(userId, checkpointId, found.value.name)];
      r := Done;
    }

    /** The upload URL and the download URL of a checkpoint are signed for
        the same object, and distinct checkpoints never share one. */
    lemma UploadAndDownloadShareObject(a: Uuid, b: Uuid)
      requires Valid()
      requires a in checkpoints && b in checkpoints && a != b
      requires IsIdText(a) && IsIdText(b)
      ensures checkpoints[a].storageKey == CheckpointStorageKey(a, None)
      ensures checkpoints[a].storageKey != checkpoints[b].storageKey
    {
      CheckpointKeysDistinct(a, b, None, None);
    }
  }
}
