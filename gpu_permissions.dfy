/** Which GPUs each user may use: the `user_gpu_permissions` table, a set of
    (user, GPU) pairs kept unique by a database constraint, and the service
    that replaces a user's whole permission list at once. */
module GpuPermissions {
  import opened Common
  import opened Users

  /** A row of `user_gpu_permissions`; the surrogate key and the timestamps
      are left out, the pair itself is unique. */
  datatype Permission = Permission(userId: Uuid, gpuId: int)

  /** `UserGpuPermissionResponse`. */
  datatype PermissionView = PermissionView(userId: Uuid, username: string, nickname: string, allowedGpuIds: seq<int>)

  /** `convertToResponse`. */
  function ToView(u: User, gpuIds: seq<int>): (v: PermissionView)
    ensures v.userId == u.id && v.username == u.username && v.nickname == u.nickname && v.allowedGpuIds == gpuIds
  {
    PermissionView(u.id, u.username, u.nickname, gpuIds)
  }

  /** Some GPU id occurs twice in the list. */
  predicate HasDuplicate(ids: seq<int>) {
    exists i, j :: 0 <= i < j < |ids| && ids[i] == ids[j]
  }

  /** The rows that grant a user the listed GPUs. */
  function GrantsOf(userId: Uuid, ids: seq<int>): (r: set<Permission>)
    ensures forall p :: p in r <==> p.userId == userId && p.gpuId in ids
  {
    set g | g in ids :: Permission(userId, g)
  }

  /** Every listed GPU is a known resource. */
  predicate AllKnown(ids: seq<int>, known: set<int>) {
    forall g :: g in ids ==> g in known
  }

  /** One unknown GPU in the list is enough to fail the check. */
  lemma UnknownGpu(ids: seq<int>, known: set<int>, g: int)
    requires g in ids && g !in known
    ensures !AllKnown(ids, known)
  {
  }

  class GpuPermissionService {
    const users: UserRepository
    /** The ids of the GPU resources that exist. */
    const resources: set<int>
    /** The `user_gpu_permissions` table. */
    var permissions: set<Permission>

    constructor(users: UserRepository, resources: set<int>)
      ensures this.users == users && this.resources == resources && permissions == {}
    {
      this.users := users;
      this.resources := resources;
      permissions := {};
    }

    /** `hasGpuPermission`: a row for that pair exists. */
    predicate HasGpuPermission(userId: Uuid, gpuId: int)
      reads this
      ensures HasGpuPermission(userId, gpuId) <==> exists p :: p in permissions && p.userId == userId && p.gpuId == gpuId
    {
      Permission(userId, gpuId) in permissions
    }

    /** The GPU ids the user's rows grant. */
    function AllowedGpuIds(userId: Uuid): (r: set<int>)
      reads this
      ensures forall g :: g in r <==> HasGpuPermission(userId, g)
    {
      set p | p in permissions && p.userId == userId :: p.gpuId
    }

    /** `getAllowedGpuIds`: the user's GPU ids, each once, in the unspecified
        order of the query. */
    method GetAllowedGpuIds(userId: Uuid) returns (ids: seq<int>)
      ensures forall g :: g in ids <==> HasGpuPermission(userId, g)
      ensures !HasDuplicate(ids)
    {
      ids := Enumerate(AllowedGpuIds(userId));
    }

    /** `getUserGpuPermission`: the user and the GPU ids they may use. */
    method GetUserGpuPermission(userId: Uuid) returns (r: Result<PermissionView>)
      requires users.Valid()
      ensures userId !in users.rows <==> r == Err(UserNotFound)
      ensures r.Ok? ==>
        var u := users.rows[userId];
        r.value.userId == userId && r.value.username == u.username && r.value.nickname == u.nickname &&
        (forall g :: g in r.value.allowedGpuIds <==> HasGpuPermission(userId, g))
    {
      if userId !in users.rows {
        return Err(UserNotFound);
      }
      var ids := GetAllowedGpuIds(userId);
      r := Ok(ToView(users.rows[userId], ids));
    }

    /** `getAllUserGpuPermissions`: one entry per user, in the unspecified
        order of `findAll`. */
    method GetAllUserGpuPermissions() returns (r: seq<PermissionView>)
      requires users.Valid()
      ensures forall id :: id in users.rows <==> exists i :: 0 <= i < |r| && r[i].userId == id
      ensures forall i, j :: 0 <= i < j < |r| ==> r[i].userId != r[j].userId
      ensures forall i :: 0 <= i < |r| ==>
        forall g :: g in r[i].allowedGpuIds <==> HasGpuPermission(r[i].userId, g)
    {
      var ids := Enumerate(users.rows.Keys);
      r := [];
      var i := 0;
      while i < |ids|
        invariant 0 <= i <= |ids|
        invariant |r| == i
        invariant forall k :: 0 <= k < i ==> r[k].userId == ids[k]
        invariant forall k :: 0 <= k < i ==>
          forall g :: g in r[k].allowedGpuIds <==> HasGpuPermission(r[k].userId, g)
      {
        var gpuIds := GetAllowedGpuIds(ids[i]);
        r := r + [ToView(users.rows[ids[i]], gpuIds)];
        i := i + 1;
      }
      forall id | id in users.rows ensures exists i :: 0 <= i < |r| && r[i].userId == id {
        var k :| 0 <= k < |ids| && ids[k] == id;
        assert r[k].userId == id;
      }
    }

    /** `updateUserGpuPermission`: the user must exist and every listed GPU
        must exist, checked before anything is deleted; then the user's rows
        are replaced by one row per listed id. A repeated id violates the
        unique pair constraint on its second insert and the whole update is
        rolled back. */
    method UpdateUserGpuPermission(userId: Uuid, gpuIds: Option<seq<int>>) returns (r: Result<PermissionView>)
      modifies this
      ensures forall p: Permission :: p.userId != userId ==> (p in permissions <==> p in old(permissions))
      ensures userId !in users.rows ==> r == Err(UserNotFound) && permissions == old(permissions)
      ensures userId in users.rows ==>
        var list := if gpuIds.Some? then gpuIds.value else [];
        if !AllKnown(list, resources) then
          r == Err(ResourceNotFound) && permissions == old(permissions)
        else if HasDuplicate(list) then
          r == Err(InternalServerError) && permissions == old(permissions)
        else
          r == Ok(ToView(users.rows[userId], list)) &&
          permissions == (set p | p in old(permissions) && p.userId != userId) + GrantsOf(userId, list)
      ensures r.Ok? ==> forall g :: HasGpuPermission(userId, g) <==> g in r.value.allowedGpuIds
    {
      if userId !in users.rows {
        return Err(UserNotFound);
      }
      var list := if gpuIds.Some? then gpuIds.value else [];
      var i := 0;
      while i < |list|
        invariant 0 <= i <= |list|
        invariant forall k :: 0 <= k < i ==> list[k] in resources
      {
        if list[i] !in resources {
          UnknownGpu(list, resources, list[i]);
          return Err(ResourceNotFound);
        }
        i := i + 1;
      }
      var before := permissions;
      var others := set p | p in permissions && p.userId != userId;
      permissions := others;
      i := 0;
      while i < |list|
        invariant 0 <= i <= |list|
        invariant permissions == others + GrantsOf(userId, list[..i])
        invariant !HasDuplicate(list[..i])
      {
        var p := Permission(userId, list[i]);
        if p in permissions {
          var k :| 0 <= k < i && list[k] == list[i];
          assert list[..i + 1][k] == list[..i + 1][i];
          permissions := before;
          return Err(InternalServerError);
        }
        assert list[..i + 1] == list[..i] + [list[i]];
        permissions := permissions + {p};
        i := i + 1;
      }
      assert list[..i] == list;
      r := Ok(ToView(users.rows[userId], list));
    }
  }
}
