/** The administrators' registry of models, with unique names. */
module Models {
  import opened Common
  import opened Users

  /** `ModelType`. */
  datatype ModelType = Base | Checkpoint

  /** A row of the `models` table; the timestamp is left out. */
  datatype Model = Model(
    id: Uuid,
    name: string,
    modelType: ModelType,
    description: Option<string>,
    version: string,
    createdBy: Uuid)

  /** `CreateModelRequest`. */
  datatype CreateModelRequest = CreateModelRequest(name: string, modelType: ModelType, description: Option<string>, version: string)

  /** The MODEL_CREATE and MODEL_DELETE audit records. */
  datatype ModelAudit =
    | Created(actor: Uuid, modelId: Uuid, name: string, modelType: ModelType, version: string)
    | Removed(actor: Uuid, modelId: Uuid, name: string)

  class ModelService {
    const users: UserRepository
    /** The `models` table, keyed by id. */
    var models: map<Uuid, Model>
    /** The audit records queued, oldest first. */
    var audit: seq<ModelAudit>

    /** Rows are keyed by id and no two share a name. */
    predicate Valid()
      reads this
    {
      (forall id :: id in models ==> models[id].id == id) &&
      (forall a, b :: a in models && b in models && a != b ==> models[a].name != models[b].name)
    }

    constructor(users: UserRepository)
      ensures Valid() && this.users == users && models == map[] && audit == []
    {
      this.users := users;
      models := map[];
      audit := [];
    }

    /** `existsByName`. */
    predicate NameTaken(name: string)
      reads this
    {
      exists id :: id in models && models[id].name == name
    }

    /** `getModelById`: MODEL_NOT_FOUND for an unknown id. */
    function GetModelById(id: Uuid): (r: Result<Model>)
      reads this
      requires Valid()
      ensures r.Ok? <==> id in models
      ensures r.Ok? ==> r.value.id == id && r.value == models[id]
      ensures r.Err? ==> r.error == ModelNotFound
    {
      if id in models then Ok(models[id]) else Err(ModelNotFound)
    }

    /** `getAllModels`: one entry per stored model. */
    method GetAllModels() returns (r: seq<Model>)
      requires Valid()
      ensures forall id :: id in models <==> exists i :: 0 <= i < |r| && r[i].id == id
      ensures forall i :: 0 <= i < |r| ==> r[i] == models[r[i].id]
      ensures forall i, j :: 0 <= i < j < |r| ==> r[i].id != r[j].id
    {
      r := Enumerate(models.Values);
      forall i | 0 <= i < |r| ensures r[i].id in models && r[i] == models[r[i].id] {
        assert r[i] in models.Values;
        var k :| k in models && models[k] == r[i];
      }
      forall id | id in models ensures exists i :: 0 <= i < |r| && r[i].id == id {
        assert models[id] in models.Values;
        var i :| 0 <= i < |r| && r[i] == models[id];
      }
    }

    /** `createModel`: a taken name, then an unknown admin, are refused with
        nothing saved; the saved model carries the request's fields and the
        admin as creator. */
    method CreateModel(newId: Uuid, request: CreateModelRequest, adminId: Uuid) returns (r: Result<Model>)
      requires Valid()
      requires newId !in models
      modifies this
      ensures Valid()
      ensures old(NameTaken(request.name)) ==> r == Err(ModelNameExists) && unchanged(this)
      ensures !old(NameTaken(request.name)) && adminId !in users.rows ==> r == Err(UserNotFound) && unchanged(this)
      ensures !old(NameTaken(request.name)) && adminId in users.rows ==>
        r == Ok(Model(newId, request.name, request.modelType, request.description, request.version, adminId)) &&
        models == old(models)[newId := r.value] &&
        audit == old(audit) + [Created(adminId, newId, request.name, request.modelType, request.version)]
    {
      if NameTaken(request.name) {
        return Err(ModelNameExists);
      }
      if adminId !in users.rows {
        return Err(UserNotFound);
      }
      var m := Model(newId, request.name, request.modelType, request.description, request.version, adminId);
      models := models[newId := m];
      audit := audit + [Created(adminId, newId, m.name, m.modelType, m.version)];
      r := Ok(m);
    }

    /** `deleteModel`: removes exactly that model. */
    method DeleteModel(id: Uuid, adminId: Uuid) returns (r: Outcome)
      requires Valid()
      modifies this
      ensures Valid()
      ensures id !in old(models) ==> r == Raised(ModelNotFound) && unchanged(this)
      ensures id in old(models) ==>
        r == Done && models == old(models) - {id} &&
        audit == old(audit) + [Removed(adminId, id, old(models)[id].name)]
    {
      if id !in models {
        return Raised(ModelNotFound);
      }
      var name := models[id].name;
      models := models - {id};
      audit := audit + [Removed(adminId, id, name)];
      r := Done;
    }
  }
}
