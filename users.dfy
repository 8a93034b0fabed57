/** User accounts: the `users` table and the user-management service with its
    guards against an administrator locking themselves out, and the
    revocation of refresh tokens that follows a change of password, role or
    status. The password encoder is an oracle: `encode` is its hash
    function and `matches` its check. */
module Users {
  import opened Common
  import opened Strings
  import opened RefreshTokens

  /** USER and ADMIN. */
  datatype UserRole = Regular | Admin

  datatype UserStatus = Enabled | Disabled

  /** A row of the `users` table; a missing e-mail is `None`. */
  datatype User = User(id: Uuid, username: string, passwordHash: string, nickname: string,
                       email: Option<string>, role: UserRole, status: UserStatus)

  predicate IsAdmin(u: User) {
    u.role == Admin
  }

  predicate IsEnabled(u: User) {
    u.status == Enabled
  }

  /** The e-mail guard of `createUser` and `updateUserInfo`: a non-blank
      address that some stored user already has. */
  predicate EmailTaken(rows: map<Uuid, User>, email: string) {
    !TrimsToEmpty(email) && exists id :: id in rows && rows[id].email == Some(email)
  }

  /** The `users` table, keyed by id; user names are unique. */
  class UserRepository {
    var rows: map<Uuid, User>

    predicate Valid()
      reads this
    {
      (forall id :: id in rows ==> rows[id].id == id) &&
      (forall a, b :: a in rows && b in rows && rows[a].username == rows[b].username ==> a == b)
    }

    constructor()
      ensures Valid() && rows == map[]
    {
      rows := map[];
    }

    /** `existsByUsername`. */
    predicate ExistsByUsername(username: string)
      reads this
    {
      exists id :: id in rows && rows[id].username == username
    }

    /** `findByUsername`: the one user with that name. */
    ghost function FindByUsername(username: string): (r: Option<User>)
      reads this
      requires Valid()
      ensures r.None? <==> !ExistsByUsername(username)
      ensures r.Some? ==> r.value.id in rows && rows[r.value.id] == r.value && r.value.username == username
    {
      if ExistsByUsername(username) then
        var id :| id in rows && rows[id].username == username;
        Some(rows[id])
      else None
    }

    /** Picks the stored user with that name. */
    method LookupByUsername(username: string) returns (r: Option<User>)
      requires Valid()
      ensures r == FindByUsername(username)
    {
      if !ExistsByUsername(username) {
        return None;
      }
      var id :| id in rows && rows[id].username == username;
      r := Some(rows[id]);
    }
  }

  /** The USER_CREATE, USER_UPDATE, PASSWORD_CHANGE, PASSWORD_RESET,
      ROLE_UPDATE, STATUS_UPDATE and USER_DELETE audit records. */
  datatype UserAudit =
    | UserCreated(operator: Uuid, userId: Uuid, username: string, role: UserRole)
    | UserUpdated(operator: Uuid, userId: Uuid, nicknameChanged: bool, emailChanged: bool)
    | PasswordChanged(userId: Uuid, username: string, success: bool)
    | PasswordReset(operator: Uuid, username: string)
    | RoleUpdated(operator: Uuid, userId: Uuid, oldRole: UserRole, newRole: UserRole)
    | StatusUpdated(operator: Uuid, userId: Uuid, oldStatus: UserStatus, newStatus: UserStatus)
    | UserDeleted(operator: Uuid, userId: Uuid, username: string)

  class UserService {
    const users: UserRepository
    const tokens: RefreshTokenRepository
    /** The audit records queued, oldest first. */
    var audit: seq<UserAudit>

    predicate Valid()
      reads this, users, tokens
    {
      users.Valid() && tokens.Valid()
    }

    constructor(users: UserRepository, tokens: RefreshTokenRepository)
      requires users.Valid() && tokens.Valid()
      ensures Valid() && this.users == users && this.tokens == tokens && audit == []
    {
      this.users := users;
      this.tokens := tokens;
      audit := [];
    }

    /** `getUserById`. */
    function GetUserById(userId: Uuid): (r: Result<User>)
      reads this, users
      ensures r.Err? <==> userId !in users.rows
      ensures r.Err? ==> r.error == UserNotFound
      ensures r.Ok? ==> r.value == users.rows[userId]
    {
      if userId in users.rows then Ok(users.rows[userId]) else Err(UserNotFound)
    }

    /** `createUser`: the user name is checked first, then a non-blank
        e-mail; the new account is enabled, has the given role (USER when
        none is given) and stores only the hash of the password. */
    method CreateUser(newId: Uuid, username: string, password: string, nickname: string, email: Option<string>,
                      role: Option<UserRole>, operatorId: Uuid, encode: string -> string) returns (r: Result<User>)
      requires Valid() && newId !in users.rows
      modifies this, users
      ensures Valid()
      ensures old(users.ExistsByUsername(username)) ==>
        r == Err(UsernameExists) && unchanged(this, users)
      ensures !old(users.ExistsByUsername(username)) && email.Some? && EmailTaken(old(users.rows), email.value) ==>
        r == Err(EmailExists) && unchanged(this, users)
      ensures !old(users.ExistsByUsername(username)) && !(email.Some? && EmailTaken(old(users.rows), email.value)) ==>
        var u := User(newId, username, encode(password), nickname, email,
                      if role.Some? then role.value else Regular, Enabled);
        r == Ok(u) && users.rows == old(users.rows)[newId := u] &&
        audit == old(audit) + [UserCreated(operatorId, newId, username, u.role)]
    {
      if users.ExistsByUsername(username) {
        return Err(UsernameExists);
      }
      if email.Some? && EmailTaken(users.rows, email.value) {
        return Err(EmailExists);
      }
      var u := User(newId, username, encode(password), nickname, email,
                    if role.Some? then role.value else Regular, Enabled);
      users.rows := users.rows[newId := u];
      audit := audit + [UserCreated(operatorId, newId, username, u.role)];
      r := Ok(u);
    }

    /** `updateUserInfo`: a non-blank, different nickname replaces the old
        one; a different e-mail replaces the old one, a blank one clearing
        it, unless another user already has it; nothing is saved or audited
        when neither changes. */
    method UpdateUserInfo(userId: Uuid, nickname: Option<string>, email: Option<string>, operatorId: Uuid)
      returns (r: Result<User>)
      requires Valid()
      modifies this, users
      ensures Valid()
      ensures userId !in old(users.rows) ==> r == Err(UserNotFound) && unchanged(this, users)
      ensures userId in old(users.rows) ==>
        var u := old(users.rows)[userId];
        var newNickname := nickname.Some? && !TrimsToEmpty(nickname.value) && nickname.value != u.nickname;
        var newEmail := email.Some? && Some(email.value) != u.email;
        if newEmail && EmailTaken(old(users.rows), email.value) then
          r == Err(EmailExists) && unchanged(this, users)
        else if !newNickname && !newEmail then
          r == Ok(u) && unchanged(this, users)
        else
          var v := u.(nickname := if newNickname then nickname.value else u.nickname,
                      email := if !newEmail then u.email
                               else if TrimsToEmpty(email.value) then None
                               else email);
          r == Ok(v) && users.rows == old(users.rows)[userId := v] &&
          audit == old(audit) + [UserUpdated(operatorId, userId, newNickname, newEmail)]
    {
      if userId !in users.rows {
        return Err(UserNotFound);
      }
      var u := users.rows[userId];
      var newNickname := nickname.Some? && !TrimsToEmpty(nickname.value) && nickname.value != u.nickname;
      var newEmail := email.Some? && Some(email.value) != u.email;
      var v := u;
      if newNickname {
        v := v.(nickname := nickname.value);
      }
      if newEmail {
        if EmailTaken(users.rows, email.value) {
          return Err(EmailExists);
        }
        v := v.(email := if TrimsToEmpty(email.value) then None else email);
      }
      if newNickname || newEmail {
        users.rows := users.rows[userId := v];
        audit := audit + [UserUpdated(operatorId, userId, newNickname, newEmail)];
      }
      r := Ok(v);
    }

    /** `changePassword`: the current password must match the stored hash;
        then the hash is replaced and every refresh token of the user is
        revoked. A failed attempt is audited and changes nothing else. */
    method ChangePassword(userId: Uuid, currentPassword: string, newPassword: string,
                          encode: string -> string, matches: (string, string) -> bool) returns (r: Outcome)
      requires Valid()
      modifies this, users, tokens
      ensures Valid()
      ensures userId !in old(users.rows) ==> r == Raised(UserNotFound) && unchanged(this, users, tokens)
      ensures userId in old(users.rows) && !matches(currentPassword, old(users.rows)[userId].passwordHash) ==>
        r == Raised(InvalidCurrentPassword) && unchanged(users, tokens) &&
        audit == old(audit) + [PasswordChanged(userId, old(users.rows)[userId].username, false)]
      ensures userId in old(users.rows) && matches(currentPassword, old(users.rows)[userId].passwordHash) ==>
        var u := old(users.rows)[userId];
        r == Done && users.rows == old(users.rows)[userId := u.(passwordHash := encode(newPassword))] &&
        tokens.rows == MarkRevoked(old(tokens.rows), OfUser(userId)) &&
        audit == old(audit) + [PasswordChanged(userId, u.username, true)]
      ensures r == Done ==> forall t :: t in tokens.rows && t.userId == userId ==> t.revoked
    {
      if userId !in users.rows {
        return Raised(UserNotFound);
      }
      var u := users.rows[userId];
      if !matches(currentPassword, u.passwordHash) {
        audit := audit + [PasswordChanged(userId, u.username, false)];
        return Raised(InvalidCurrentPassword);
      }
      users.rows := users.rows[userId := u.(passwordHash := encode(newPassword))];
      var _ := tokens.RevokeAllTokensByUserId(userId);
      audit := audit + [PasswordChanged(userId, u.username, true)];
      r := Done;
    }

    /** `resetPassword`: an administrator sets a new password without the
        old one; every refresh token of the user is revoked. */
    method ResetPassword(userId: Uuid, newPassword: string, operatorId: Uuid, encode: string -> string)
      returns (r: Outcome)
      requires Valid()
      modifies this, users, tokens
      ensures Valid()
      ensures userId !in old(users.rows) ==> r == Raised(UserNotFound) && unchanged(this, users, tokens)
      ensures userId in old(users.rows) ==>
        var u := old(users.rows)[userId];
        r == Done && users.rows == old(users.rows)[userId := u.(passwordHash := encode(newPassword))] &&
        tokens.rows == MarkRevoked(old(tokens.rows), OfUser(userId)) &&
        audit == old(audit) + [PasswordReset(operatorId, u.username)]
      ensures r == Done ==> forall t :: t in tokens.rows && t.userId == userId ==> t.revoked
    {
      if userId !in users.rows {
        return Raised(UserNotFound);
      }
      var u := users.rows[userId];
      users.rows := users.rows[userId := u.(passwordHash := encode(newPassword))];
      var _ := tokens.RevokeAllTokensByUserId(userId);
      audit := audit + [PasswordReset(operatorId, u.username)];
      r := Done;
    }

    /** `updateUserRole`: both users must exist, the operator must be an
        administrator and may not change their own role; the same role is a
        no-op, a new one revokes every refresh token of the user. */
    method UpdateUserRole(userId: Uuid, newRole: UserRole, operatorId: Uuid) returns (r: Result<User>)
      requires Valid()
      modifies this, users, tokens
      ensures Valid()
      ensures userId !in old(users.rows) || operatorId !in old(users.rows) ==>
        r == Err(UserNotFound) && unchanged(this, users, tokens)
      ensures userId in old(users.rows) && operatorId in old(users.rows) && !IsAdmin(old(users.rows)[operatorId]) ==>
        r == Err(AccessDenied) && unchanged(this, users, tokens)
      ensures userId in old(users.rows) && operatorId in old(users.rows) && IsAdmin(old(users.rows)[operatorId]) ==>
        var u := old(users.rows)[userId];
        if userId == operatorId then
          r == Err(CannotModifySelf) && unchanged(this, users, tokens)
        else if u.role == newRole then
          r == Ok(u) && unchanged(this, users, tokens)
        else
          r == Ok(u.(role := newRole)) && users.rows == old(users.rows)[userId := u.(role := newRole)] &&
          tokens.rows == MarkRevoked(old(tokens.rows), OfUser(userId)) &&
          audit == old(audit) + [RoleUpdated(operatorId, userId, u.role, newRole)]
      ensures operatorId in old(users.rows) ==> users.rows[operatorId].role == old(users.rows)[operatorId].role
    {
      if userId !in users.rows || operatorId !in users.rows {
        return Err(UserNotFound);
      }
      var u, operator := users.rows[userId], users.rows[operatorId];
      if !IsAdmin(operator) {
        return Err(AccessDenied);
      }
      if userId == operatorId {
        return Err(CannotModifySelf);
      }
      if u.role == newRole {
        return Ok(u);
      }
      var v := u.(role := newRole);
      users.rows := users.rows[userId := v];
      var _ := tokens.RevokeAllTokensByUserId(userId);
      audit := audit + [RoleUpdated(operatorId, userId, u.role, newRole)];
      r := Ok(v);
    }

    /** `updateUserStatus`: nobody may disable their own account; the same
        status is a no-op; disabling revokes every refresh token of the user,
        enabling revokes none. */
    method UpdateUserStatus(userId: Uuid, newStatus: UserStatus, operatorId: Uuid) returns (r: Result<User>)
      requires Valid()
      modifies this, users, tokens
      ensures Valid()
      ensures userId !in old(users.rows) ==> r == Err(UserNotFound) && unchanged(this, users, tokens)
      ensures userId in old(users.rows) ==>
        var u := old(users.rows)[userId];
        if userId == operatorId && newStatus == Disabled then
          r == Err(CannotDisableSelf) && unchanged(this, users, tokens)
        else if u.status == newStatus then
          r == Ok(u) && unchanged(this, users, tokens)
        else
          r == Ok(u.(status := newStatus)) && users.rows == old(users.rows)[userId := u.(status := newStatus)] &&
          tokens.rows == (if newStatus == Disabled then MarkRevoked(old(tokens.rows), OfUser(userId))
                          else old(tokens.rows)) &&
          audit == old(audit) + [StatusUpdated(operatorId, userId, u.status, newStatus)]
      ensures operatorId in old(users.rows) && IsEnabled(old(users.rows)[operatorId]) ==>
        IsEnabled(users.rows[operatorId])
    {
      if userId !in users.rows {
        return Err(UserNotFound);
      }
      var u := users.rows[userId];
      if userId == operatorId && newStatus == Disabled {
        return Err(CannotDisableSelf);
      }
      if u.status == newStatus {
        return Ok(u);
      }
      var v := u.(status := newStatus);
      users.rows := users.rows[userId := v];
      if newStatus == Disabled {
        var _ := tokens.RevokeAllTokensByUserId(userId);
      }
      audit := audit + [StatusUpdated(operatorId, userId, u.status, newStatus)];
      r := Ok(v);
    }

    /** `deleteUser`: nobody may delete their own account or an
        administrator's; otherwise the user's refresh tokens are revoked and
        only that user is removed. */
    method DeleteUser(userId: Uuid, operatorId: Uuid) returns (r: Outcome)
      requires Valid()
      modifies this, users, tokens
      ensures Valid()
      ensures userId !in old(users.rows) ==> r == Raised(UserNotFound) && unchanged(this, users, tokens)
      ensures userId in old(users.rows) ==>
        var u := old(users.rows)[userId];
        if userId == operatorId then
          r == Raised(CannotDeleteSelf) && unchanged(this, users, tokens)
        else if IsAdmin(u) then
          r == Raised(CannotDeleteAdmin) && unchanged(this, users, tokens)
        else
          r == Done && users.rows == old(users.rows) - {userId} &&
          tokens.rows == MarkRevoked(old(tokens.rows), OfUser(userId)) &&
          audit == old(audit) + [UserDeleted(operatorId, userId, u.username)]
      ensures forall id :: id in old(users.rows) && IsAdmin(old(users.rows)[id]) ==> id in users.rows
    {
      if userId !in users.rows {
        return Raised(UserNotFound);
      }
      var u := users.rows[userId];
      if userId == operatorId {
        return Raised(CannotDeleteSelf);
      }
      if IsAdmin(u) {
        return Raised(CannotDeleteAdmin);
      }
      var _ := tokens.RevokeAllTokensByUserId(userId);
      users.rows := users.rows - {userId};
      audit := audit + [UserDeleted(operatorId, userId, u.username)];
      r := Done;
    }
  }
}
