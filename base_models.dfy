/** The registry of base models that administrators make available for
    fine-tuning: names are unique, HuggingFace ids are registered once, and a
    model can be switched off without being removed. */
module BaseModels {
  import opened Common
  import opened Users

  /** A row of the `base_models` table; the timestamp is left out. */
  datatype BaseModel = BaseModel(
    id: Uuid,
    name: string,
    huggingfaceModelId: string,
    description: Option<string>,
    enabled: bool,
    createdBy: Uuid)

  /** `CreateBaseModelRequest`. */
  datatype CreateBaseModelRequest = CreateBaseModelRequest(name: string, huggingfaceModelId: string, description: Option<string>)

  /** The MODEL_CREATE, MODEL_UPDATE and MODEL_DELETE audit records. */
  datatype BaseModelAudit =
    | Registered(actor: Uuid, modelId: Uuid, name: string, huggingfaceModelId: string)
    | Switched(actor: Uuid, modelId: Uuid, name: string, enabled: bool)
    | Unregistered(actor: Uuid, modelId: Uuid, name: string)

  /** Rows are keyed by id, and no two rows share a name or a HuggingFace
      id. */
  predicate WellKeyed(ms: map<Uuid, BaseModel>) {
    (forall id :: id in ms ==> ms[id].id == id) &&
    (forall a, b :: a in ms && b in ms && a != b ==>
      ms[a].name != ms[b].name && ms[a].huggingfaceModelId != ms[b].huggingfaceModelId)
  }

  /** The table after switching one model on or off. */
  function WithEnabled(ms: map<Uuid, BaseModel>, id: Uuid, enabled: bool): (r: map<Uuid, BaseModel>)
    requires id in ms
    ensures r.Keys == ms.Keys
    ensures r[id].enabled == enabled && r[id] == ms[id].(enabled := r[id].enabled)
    ensures forall k :: k in ms && k != id ==> r[k] == ms[k]
  {
    ms[id := ms[id].(enabled := enabled)]
  }

  /** Switching is idempotent, only the last switch counts, and it keeps
      the table well keyed. */
  lemma WithEnabledIdempotent(ms: map<Uuid, BaseModel>, id: Uuid, first: bool, second: bool)
    requires id in ms
    ensures WithEnabled(WithEnabled(ms, id, first), id, first) == WithEnabled(ms, id, first)
    ensures WithEnabled(WithEnabled(ms, id, first), id, second) == WithEnabled(ms, id, second)
    ensures WellKeyed(ms) ==> WellKeyed(WithEnabled(ms, id, first))
  {
  }

  class BaseModelService {
    const users: UserRepository
    /** The `base_models` table, keyed by id. */
    var models: map<Uuid, BaseModel>
    /** The audit records queued, oldest first. */
    var audit: seq<BaseModelAudit>

    predicate Valid()
      reads this
    {
      WellKeyed(models)
    }

    constructor(users: UserRepository)
      ensures Valid() && this.users == users && models == map[] && audit == []
    {
      this.users := users;
      models := map[];
      audit := [];
    }

    /** `existsByName`. */
    predicate NameTaken(name: string)
      reads this
    {
      exists id :: id in models && models[id].name == name
    }

    /** `existsByHuggingfaceModelId`. */
    predicate HuggingfaceIdTaken(hfId: string)
      reads this
    {
      exists id :: id in models && models[id].huggingfaceModelId == hfId
    }

    /** `getModelById` and `getModelEntityById`: MODEL_NOT_FOUND for an
        unknown id. */
    function GetModelById(id: Uuid): (r: Result<BaseModel>)
      reads this
      requires Valid()
      ensures r.Ok? <==> id in models
      ensures r.Ok? ==> r.value.id == id && r.value == models[id]
      ensures r.Err? ==> r.error == ModelNotFound
    {
      if id in models then Ok(models[id]) else Err(ModelNotFound)
    }

    /** `getAllEnabledModels`: exactly the enabled models, each once. */
    method GetAllEnabledModels() returns (r: seq<BaseModel>)
      ensures forall m :: m in r <==> m in models.Values && m.enabled
      ensures forall i, j :: 0 <= i < j < |r| ==> r[i] != r[j]
    {
      r := Enumerate(set m | m in models.Values && m.enabled);
    }

    /** `getAllModels`: every model, enabled or not, each once. */
    method GetAllModels() returns (r: seq<BaseModel>)
      ensures forall m :: m in r <==> m in models.Values
      ensures forall i, j :: 0 <= i < j < |r| ==> r[i] != r[j]
    {
      r := Enumerate(models.Values);
    }

    /** `createModel`: a taken name is refused first, then a taken
        HuggingFace id (with the same error code), then an unknown admin;
        a registered model starts enabled. */
    method CreateModel(newId: Uuid, request: CreateBaseModelRequest, adminId: Uuid) returns (r: Result<BaseModel>)
      requires Valid()
      requires newId !in models
      modifies this
      ensures Valid()
      ensures old(NameTaken(request.name)) ==> r == Err(ModelNameExists) && unchanged(this)
      ensures !old(NameTaken(request.name)) && old(HuggingfaceIdTaken(request.huggingfaceModelId)) ==>
        r == Err(ModelNameExists) && unchanged(this)
      ensures !old(NameTaken(request.name)) && !old(HuggingfaceIdTaken(request.huggingfaceModelId)) && adminId !in users.rows ==>
        r == Err(UserNotFound) && unchanged(this)
      ensures r.Ok? ==>
        r.value == BaseModel(newId, request.name, request.huggingfaceModelId, request.description, true, adminId) &&
        models == old(models)[newId := r.value] &&
        audit == old(audit) + [Registered(adminId, newId, request.name, request.huggingfaceModelId)]
      ensures r.Ok? <==> !old(NameTaken(request.name)) && !old(HuggingfaceIdTaken(request.huggingfaceModelId)) && adminId in users.rows
    {
      if NameTaken(request.name) {
        return Err(ModelNameExists);
      }
      if HuggingfaceIdTaken(request.huggingfaceModelId) {
        return Err(ModelNameExists);
      }
      if adminId !in users.rows {
        return Err(UserNotFound);
      }
      var m := BaseModel(newId, request.name, request.huggingfaceModelId, request.description, true, adminId);
      models := models[newId := m];
      audit := audit + [Registered(adminId, newId, m.name, m.huggingfaceModelId)];
      r := Ok(m);
    }

    /** `setModelEnabled`: only the enabled flag of that model changes. */
    method SetModelEnabled(id: Uuid, enabled: bool, adminId: Uuid) returns (r: Result<BaseModel>)
      requires Valid()
      modifies this
      ensures Valid()
      ensures id !in old(models) ==> r == Err(ModelNotFound) && unchanged(this)
      ensures id in old(models) ==>
        models == WithEnabled(old(models), id, enabled) && r == Ok(models[id]) &&
        audit == old(audit) + [Switched(adminId, id, models[id].name, enabled)]
    {
      if id !in models {
        return Err(ModelNotFound);
      }
      var m := models[id];
      m := m.(enabled := enabled);
      models := models[id := m];
      WithEnabledIdempotent(old(models), id, enabled, enabled);
      audit := audit + [Switched(adminId, id, m.name, enabled)];
      r := Ok(m);
    }

    /** `deleteModel`: removes that model and no other. */
    method DeleteModel(id: Uuid, adminId: Uuid) returns (r: Outcome)
      requires Valid()
      modifies this
      ensures Valid()
      ensures id !in old(models) ==> r == Raised(ModelNotFound) && unchanged(this)
      ensures id in old(models) ==>
        r == Done && models == old(models) - {id} &&
        audit == old(audit) + [Unregistered(adminId, id, old(models)[id].name)]
    {
      if id !in models {
        return Raised(ModelNotFound);
      }
      var name := models[id].name;
      models := models - {id};
      audit := audit + [Unregistered(adminId, id, name)];
      r := Done;
    }
  }
}
