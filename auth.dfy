/** Login, access-token refresh and logout over the `users` and
    `refresh_tokens` tables. Signing an access token, checking a password and
    drawing the random refresh-token value are oracles: `accessTokenFor`,
    `matches`, and the `tokenValue` a caller passes in. */
module Auth {
  import opened Common
  import opened RefreshTokens
  import opened Users

  /** A refresh token lives seven days. */
  const RefreshLifetime: int := 7 * 24 * 60 * 60

  /** The USER_LOGIN, USER_LOGOUT, TOKEN_REFRESH and TOKEN_REVOKE audit
      records. */
  datatype AuthAudit =
    | Login(userId: Uuid, username: string, success: bool)
    | Logout(userId: Uuid)
    | TokenRefresh(userId: Uuid, tokenType: string, outcome: string)
    | TokenRevoke(subject: Option<Uuid>, tokenType: string, reason: string)

  /** The pair `authenticate` returns. */
  datatype LoginTokens = LoginTokens(accessToken: string, refreshToken: string)

  class AuthService {
    const users: UserRepository
    const tokens: RefreshTokenRepository
    /** The audit records queued, oldest first. */
    var audit: seq<AuthAudit>

    predicate Valid()
      reads this, users, tokens
    {
      users.Valid() && tokens.Valid()
    }

    constructor(users: UserRepository, tokens: RefreshTokenRepository)
      requires users.Valid() && tokens.Valid()
      ensures Valid() && this.users == users && this.tokens == tokens && audit == []
    {
      this.users := users;
      this.tokens := tokens;
      audit := [];
    }

    /** `generateAndSaveRefreshToken`: stores an unrevoked token for the user
        that expires seven days from `now`, and returns its value. */
    method GenerateAndSaveRefreshToken(user: User, tokenId: Uuid, tokenValue: string, now: Time)
      returns (value: string)
      requires Valid()
      requires forall t :: t in tokens.rows ==> t.id != tokenId && t.token != tokenValue
      modifies tokens
      ensures Valid()
      ensures value == tokenValue
      ensures tokens.rows == old(tokens.rows) + [NewToken(tokenId, user.id, tokenValue, now + RefreshLifetime, now)]
    {
      tokens.Save(NewToken(tokenId, user.id, tokenValue, now + RefreshLifetime, now));
      value := tokenValue;
    }

    /** `authenticate`: an unknown name, then a disabled account (before the
        password is looked at), then a wrong password are refused; only a
        successful login stores a refresh token. */
    method Authenticate(username: string, password: string, matches: (string, string) -> bool,
                        accessTokenFor: User -> string, tokenId: Uuid, tokenValue: string, now: Time)
      returns (r: Result<LoginTokens>)
      requires Valid()
      requires forall t :: t in tokens.rows ==> t.id != tokenId && t.token != tokenValue
      modifies this, tokens
      ensures Valid()
      ensures old(users.FindByUsername(username)).None? ==>
        r == Err(InvalidCredentials) && unchanged(this, tokens)
      ensures old(users.FindByUsername(username)).Some? ==>
        var u := old(users.FindByUsername(username)).value;
        if !IsEnabled(u) then
          r == Err(AccountDisabled) && unchanged(tokens) && audit == old(audit) + [Login(u.id, username, false)]
        else if !matches(password, u.passwordHash) then
          r == Err(InvalidCredentials) && unchanged(tokens) && audit == old(audit) + [Login(u.id, username, false)]
        else
          r == Ok(LoginTokens(accessTokenFor(u), tokenValue)) &&
          tokens.rows == old(tokens.rows) + [NewToken(tokenId, u.id, tokenValue, now + RefreshLifetime, now)] &&
          audit == old(audit) + [Login(u.id, username, true)]
      ensures r.Ok? ==>
        tokens.FindByToken(r.value.refreshToken).Some? && IsValid(tokens.FindByToken(r.value.refreshToken).value, now)
    {
      var found := users.LookupByUsername(username);
      if found.None? {
        return Err(InvalidCredentials);
      }
      var u := found.value;
      if !IsEnabled(u) {
        audit := audit + [Login(u.id, username, false)];
        return Err(AccountDisabled);
      }
      if !matches(password, u.passwordHash) {
        audit := audit + [Login(u.id, username, false)];
        return Err(InvalidCredentials);
      }
      var accessToken := accessTokenFor(u);
      var refreshToken := GenerateAndSaveRefreshToken(u, tokenId, tokenValue, now);
      audit := audit + [Login(u.id, username, true)];
      r := Ok(LoginTokens(accessToken, refreshToken));
      assert tokens.rows[|tokens.rows| - 1] in tokens.rows;
    }

    /** `refreshAccessToken`: the token must exist and pass `isValid` at
        `now`, and its user must exist and be enabled; the refresh-token
        table is never changed. */
    method RefreshAccessToken(tokenValue: string, accessTokenFor: User -> string, now: Time)
      returns (r: Result<string>)
      requires Valid()
      modifies this
      ensures Valid()
      ensures old(tokens.FindByToken(tokenValue)).None? ==> r == Err(InvalidRefreshToken) && unchanged(this)
      ensures old(tokens.FindByToken(tokenValue)).Some? ==>
        var t := old(tokens.FindByToken(tokenValue)).value;
        if !IsValid(t, now) then
          r == Err(InvalidRefreshToken) && audit == old(audit) + [TokenRefresh(t.userId, "refresh", "failed_invalid")]
        else if t.userId !in users.rows then
          r == Err(InvalidRefreshToken) && unchanged(this)
        else if !IsEnabled(users.rows[t.userId]) then
          r == Err(AccountDisabled) && audit == old(audit) + [TokenRefresh(t.userId, "refresh", "failed_disabled")]
        else
          r == Ok(accessTokenFor(users.rows[t.userId])) &&
          audit == old(audit) + [TokenRefresh(t.userId, "access", "success")]
    {
      var found := tokens.FindByToken(tokenValue);
      if found.None? {
        return Err(InvalidRefreshToken);
      }
      var t := found.value;
      if !IsValid(t, now) {
        audit := audit + [TokenRefresh(t.userId, "refresh", "failed_invalid")];
        return Err(InvalidRefreshToken);
      }
      if t.userId !in users.rows {
        return Err(InvalidRefreshToken);
      }
      var u := users.rows[t.userId];
      if !IsEnabled(u) {
        audit := audit + [TokenRefresh(u.id, "refresh", "failed_disabled")];
        return Err(AccountDisabled);
      }
      audit := audit + [TokenRefresh(t.userId, "access", "success")];
      r := Ok(accessTokenFor(u));
    }

    /** The two-argument `logout`: revokes the given token (nothing when
        there is none) and records the logout of a known user. */
    method Logout(tokenValue: Option<string>, userId: Option<Uuid>)
      requires Valid()
      modifies this, tokens
      ensures Valid()
      ensures tokenValue.None? ==> tokens.rows == old(tokens.rows)
      ensures tokenValue.Some? ==> tokens.rows == MarkRevoked(old(tokens.rows), WithToken(tokenValue.value))
      ensures audit == old(audit) +
        (if tokenValue.Some? then [TokenRevoke(userId, "refresh", "logout")] else []) +
        (if userId.Some? then [AuthAudit.Logout(userId.value)] else [])
    {
      if tokenValue.Some? {
        var _ := tokens.RevokeTokenByToken(tokenValue.value);
        audit := audit + [TokenRevoke(userId, "refresh", "logout")];
      }
      if userId.Some? {
        audit := audit + [AuthAudit.Logout(userId.value)];
      }
    }

    /** The one-argument `logout`: the user is read from the stored token
        first, then the token is revoked as above. */
    method LogoutByToken(tokenValue: Option<string>)
      requires Valid()
      modifies this, tokens
      ensures Valid()
      ensures tokenValue.None? ==> tokens.rows == old(tokens.rows) && audit == old(audit)
      ensures tokenValue.Some? ==>
        var owner := old(tokens.FindByToken(tokenValue.value));
        tokens.rows == MarkRevoked(old(tokens.rows), WithToken(tokenValue.value)) &&
        audit == old(audit) + [TokenRevoke(if owner.Some? then Some(owner.value.userId) else None, "refresh", "logout")] +
          (if owner.Some? then [AuthAudit.Logout(owner.value.userId)] else [])
    {
      var userId: Option<Uuid> := None;
      if tokenValue.Some? {
        var found := tokens.FindByToken(tokenValue.value);
        if found.Some? {
          userId := Some(found.value.userId);
        }
      }
      Logout(tokenValue, userId);
    }

    /** `revokeAllUserTokens`: every refresh token of the user is revoked,
        no other row changes. */
    method RevokeAllUserTokens(userId: Uuid)
      requires Valid()
      modifies this, tokens
      ensures Valid()
      ensures tokens.rows == MarkRevoked(old(tokens.rows), OfUser(userId))
      ensures audit == old(audit) + [TokenRevoke(Some(userId), "refresh", "all_revoked")]
      ensures forall t :: t in tokens.rows && t.userId == userId ==> t.revoked
    {
      var _ := tokens.RevokeAllTokensByUserId(userId);
      audit := audit + [TokenRevoke(Some(userId), "refresh", "all_revoked")];
    }
  }

  /** A token revoked by logout can no longer refresh: `isValid` rejects it
      at any time, which is the first check of `refreshAccessToken`. */
  lemma LoggedOutTokenIsInvalid(rs: seq<RefreshToken>, tokenValue: string, now: Time)
    ensures forall t :: t in MarkRevoked(rs, WithToken(tokenValue)) && t.token == tokenValue ==> !IsValid(t, now)
  {
    var r := MarkRevoked(rs, WithToken(tokenValue));
    forall t | t in r && t.token == tokenValue ensures !IsValid(t, now) {
      var k :| 0 <= k < |r| && r[k] == t;
      assert rs[k].token == tokenValue;
    }
  }
}
