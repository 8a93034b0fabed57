/** Refresh tokens: the entity's validity rule and the `refresh_tokens`
    table with its finders and its bulk UPDATE and DELETE queries. */
module RefreshTokens {
  import opened Common

  /** A row of the `refresh_tokens` table. Times are seconds on one clock. */
  datatype RefreshToken = RefreshToken(id: Uuid, userId: Uuid, token: string, expiresAt: Time,
                                       revoked: bool, createdAt: Time)

  /** A freshly built token: not revoked. */
  function NewToken(id: Uuid, userId: Uuid, token: string, expiresAt: Time, now: Time): (t: RefreshToken)
    ensures !t.revoked && t.userId == userId && t.token == token && t.expiresAt == expiresAt && t.createdAt == now
  {
    RefreshToken(id, userId, token, expiresAt, false, now)
  }

  /** `isExpired`: `now` is strictly after the expiry. */
  predicate IsExpired(t: RefreshToken, now: Time)
    ensures IsExpired(t, now) ==> Selects(ExpiredBy(now), t)
    ensures Selects(ExpiredBy(now), t) <==> IsExpired(t, now) || t.expiresAt == now
  {
    now > t.expiresAt
  }

  /** `isValid`: neither revoked nor expired. */
  predicate IsValid(t: RefreshToken, now: Time)
    ensures IsValid(t, now) <==> Selects(ValidFor(t.userId, now), t) || (!t.revoked && t.expiresAt == now)
  {
    !t.revoked && !IsExpired(t, now)
  }

  /** `revoke`: the same row with the revoked flag set. */
  function Revoke(t: RefreshToken): (u: RefreshToken)
    ensures u.revoked && u.(revoked := t.revoked) == t
  {
    t.(revoked := true)
  }

  /** Once expired, a token stays expired. */
  lemma ExpiredStaysExpired(t: RefreshToken, now: Time, later: Time)
    requires IsExpired(t, now) && now <= later
    ensures IsExpired(t, later) && !IsValid(t, later)
  {
  }

  /** Revoking is idempotent, and a revoked token is never valid again. */
  lemma RevokeIsFinal(t: RefreshToken, now: Time)
    ensures Revoke(Revoke(t)) == Revoke(t)
    ensures !IsValid(Revoke(t), now)
  {
  }

  /** The WHERE clauses of the repository's queries. */
  datatype Selector =
    | OfUser(userId: Uuid)                 // user_id = :userId
    | WithToken(token: string)             // token = :token
    | ValidFor(owner: Uuid, now: Time)     // user_id = :userId, not revoked, expires_at > :now
    | ExpiredBy(time: Time)                // expires_at <= :time
    | RevokedBy(cutoff: Time)              // revoked and created_at <= :cutoff
    | Not(sel: Selector)                   // the rows a DELETE keeps

  predicate Selects(sel: Selector, t: RefreshToken) {
    match sel
    case OfUser(u) => t.userId == u
    case WithToken(v) => t.token == v
    case ValidFor(u, now) => t.userId == u && !t.revoked && t.expiresAt > now
    case ExpiredBy(time) => t.expiresAt <= time
    case RevokedBy(cutoff) => t.revoked && t.createdAt <= cutoff
    case Not(s) => !Selects(s, t)
  }

  /** The valid-token query agrees with `isValid` except at the instant of
      expiry, which the query already excludes and `isValid` still accepts. */
  lemma ValidQueryVersusIsValid(t: RefreshToken, userId: Uuid, now: Time)
    ensures Selects(ValidFor(userId, now), t) <==> t.userId == userId && IsValid(t, now) && t.expiresAt != now
    ensures t.userId == userId && !t.revoked && t.expiresAt == now ==>
      IsValid(t, now) && !Selects(ValidFor(userId, now), t)
  {
  }

  /** The rows a SELECT returns, in table order. */
  function Where(rs: seq<RefreshToken>, sel: Selector): (r: seq<RefreshToken>)
    ensures |r| <= |rs|
    ensures forall t :: t in r <==> t in rs && Selects(sel, t)
  {
    if rs == [] then []
    else
      var init := Where(rs[..|rs| - 1], sel);
      var last := rs[|rs| - 1];
      assert rs == rs[..|rs| - 1] + [last];
      if Selects(sel, last) then init + [last] else init
  }

  /** The first row a SELECT returns, if any. */
  function First(rs: seq<RefreshToken>, sel: Selector): (r: Option<RefreshToken>)
    ensures r.None? <==> forall t :: t in rs ==> !Selects(sel, t)
    ensures r.Some? ==> r.value in rs && Selects(sel, r.value)
  {
    var w := Where(rs, sel);
    if w == [] then None
    else
      assert w[0] in w;
      Some(w[0])
  }

  /** The table after an UPDATE that revokes the selected rows. */
  function MarkRevoked(rs: seq<RefreshToken>, sel: Selector): (r: seq<RefreshToken>)
    ensures |r| == |rs|
    ensures forall i :: 0 <= i < |rs| ==> r[i] == if Selects(sel, rs[i]) then Revoke(rs[i]) else rs[i]
  {
    if rs == [] then []
    else
      var last := rs[|rs| - 1];
      MarkRevoked(rs[..|rs| - 1], sel) + [if Selects(sel, last) then Revoke(last) else last]
  }

  /** One more row of the table adds at most that row to a SELECT's
      result. */
  lemma WhereStep(rs: seq<RefreshToken>, i: nat, sel: Selector)
    requires i < |rs|
    ensures Where(rs[..i + 1], sel) == if Selects(sel, rs[i]) then Where(rs[..i], sel) + [rs[i]] else Where(rs[..i], sel)
  {
    assert rs[..i + 1][..i] == rs[..i];
  }

  /** One more row of the table adds its image to an UPDATE's result. */
  lemma MarkRevokedStep(rs: seq<RefreshToken>, i: nat, sel: Selector)
    requires i < |rs|
    ensures MarkRevoked(rs[..i + 1], sel) == MarkRevoked(rs[..i], sel) + [if Selects(sel, rs[i]) then Revoke(rs[i]) else rs[i]]
  {
    assert rs[..i + 1][..i] == rs[..i];
  }

  /** An UPDATE that revokes rows keeps ids and token values. */
  lemma MarkRevokedKeepsDistinct(rs: seq<RefreshToken>, sel: Selector)
    requires Distinct(rs)
    ensures Distinct(MarkRevoked(rs, sel))
  {
    var r := MarkRevoked(rs, sel);
    assert forall i :: 0 <= i < |rs| ==> r[i].id == rs[i].id && r[i].token == rs[i].token;
  }

  /** A DELETE removes exactly the selected rows: the kept and the removed
      rows together are the whole table. */
  lemma {:induction false} WhereSplits(rs: seq<RefreshToken>, sel: Selector)
    ensures |Where(rs, sel)| + |Where(rs, Not(sel))| == |rs|
  {
    if rs != [] {
      WhereSplits(rs[..|rs| - 1], sel);
    }
  }

  /** A selection no row satisfies is empty. */
  lemma WhereNone(rs: seq<RefreshToken>, sel: Selector)
    requires forall t :: t in rs ==> !Selects(sel, t)
    ensures Where(rs, sel) == []
  {
  }

  /** No two rows share an id or a token value (the token column is
      unique). */
  predicate Distinct(rs: seq<RefreshToken>) {
    forall i, j :: 0 <= i < j < |rs| ==> rs[i].id != rs[j].id && rs[i].token != rs[j].token
  }

  /** Since token values are unique, a token value selects at most one
      row. */
  lemma {:induction false} AtMostOneRowPerToken(rs: seq<RefreshToken>, token: string)
    requires Distinct(rs)
    ensures |Where(rs, WithToken(token))| <= 1
  {
    if rs != [] {
      var init, last := rs[..|rs| - 1], rs[|rs| - 1];
      assert Distinct(init);
      if last.token == token {
        forall t | t in init ensures t.token != token {
          var k :| 0 <= k < |init| && init[k] == t;
          assert rs[k] == t;
        }
        WhereNone(init, WithToken(token));
      } else {
        AtMostOneRowPerToken(init, token);
      }
    }
  }

  /** A selection from a table without duplicates has none either. */
  lemma {:induction false} WhereKeepsDistinct(rs: seq<RefreshToken>, sel: Selector)
    requires Distinct(rs)
    ensures Distinct(Where(rs, sel))
  {
    if rs != [] {
      var init, last := rs[..|rs| - 1], rs[|rs| - 1];
      assert Distinct(init);
      WhereKeepsDistinct(init, sel);
      var w := Where(init, sel);
      if Selects(sel, last) {
        forall t | t in w ensures t.id != last.id && t.token != last.token {
          var k :| 0 <= k < |init| && init[k] == t;
          assert rs[k] == t;
        }
        assert Where(rs, sel) == w + [last];
      }
    }
  }

  /** After all of a user's tokens are revoked, none of them is valid at any
      time: the valid-token query for that user is empty. */
  lemma NoValidTokenAfterRevokeAll(rs: seq<RefreshToken>, userId: Uuid, now: Time)
    ensures Where(MarkRevoked(rs, OfUser(userId)), ValidFor(userId, now)) == []
  {
    var r := MarkRevoked(rs, OfUser(userId));
    forall t | t in r ensures !Selects(ValidFor(userId, now), t) {
      var k :| 0 <= k < |r| && r[k] == t;
    }
    WhereNone(r, ValidFor(userId, now));
  }

  /** A user has no row in the valid-token query exactly when each of their
      tokens fails `isValid` or expires at that very instant. */
  lemma NoValidTokens(rs: seq<RefreshToken>, userId: Uuid, now: Time)
    ensures Where(rs, ValidFor(userId, now)) == [] <==>
      forall t :: t in rs && t.userId == userId ==> !IsValid(t, now) || t.expiresAt == now
  {
    var r := Where(rs, ValidFor(userId, now));
    if r != [] {
      assert r[0] in r;
    } else {
      forall t | t in rs && t.userId == userId ensures !IsValid(t, now) || t.expiresAt == now {
        ValidQueryVersusIsValid(t, userId, now);
      }
    }
  }

  /** A DELETE's pass over one more row: a selected row is counted, any
      other row is kept. */
  function SiftRow(sel: Selector, t: RefreshToken, kept: seq<RefreshToken>, count: nat): (seq<RefreshToken>, nat)
  {
    if Selects(sel, t) then (kept, count + 1) else (kept + [t], count)
  }

  /** An UPDATE's pass over one more row: a selected row is revoked and
      counted, any other row is copied. */
  function MarkRow(sel: Selector, t: RefreshToken, out: seq<RefreshToken>, count: nat): (seq<RefreshToken>, nat)
  {
    if Selects(sel, t) then (out + [Revoke(t)], count + 1) else (out + [t], count)
  }

  /** Sifting one more row extends the kept rows and the count of the
      removed ones of the prefix before it to the prefix through it. */
  lemma SiftStep(rs: seq<RefreshToken>, i: nat, sel: Selector)
    requires i < |rs|
    ensures SiftRow(sel, rs[i], Where(rs[..i], Not(sel)), |Where(rs[..i], sel)|)
      == (Where(rs[..i + 1], Not(sel)), |Where(rs[..i + 1], sel)|)
  {
    WhereStep(rs, i, sel);
    WhereStep(rs, i, Not(sel));
  }

  /** Marking one more row extends the prefix's image and count to the
      prefix through it. */
  lemma MarkStep(rs: seq<RefreshToken>, i: nat, sel: Selector)
    requires i < |rs|
    ensures MarkRow(sel, rs[i], MarkRevoked(rs[..i], sel), |Where(rs[..i], sel)|)
      == (MarkRevoked(rs[..i + 1], sel), |Where(rs[..i + 1], sel)|)
  {
    WhereStep(rs, i, sel);
    MarkRevokedStep(rs, i, sel);
  }

  /** One pass over the table that keeps the rows a DELETE leaves and counts
      the ones it removes. */
  method Sift(rs: seq<RefreshToken>, sel: Selector) returns (kept: seq<RefreshToken>, count: nat)
    ensures kept == Where(rs, Not(sel))
    ensures count == |Where(rs, sel)|
  {
    kept := [];
    count := 0;
    var i := 0;
    while i < |rs|
      invariant 0 <= i <= |rs|
      invariant kept == Where(rs[..i], Not(sel))
      invariant count == |Where(rs[..i], sel)|
    {
      SiftStep(rs, i, sel);
      var next := SiftRow(sel, rs[i], kept, count);
      kept, count := next.0, next.1;
      i := i + 1;
    }
    assert rs[..|rs|] == rs;
  }

  /** One pass over the table that revokes the rows an UPDATE selects and
      counts them. */
  method Mark(rs: seq<RefreshToken>, sel: Selector) returns (out: seq<RefreshToken>, count: nat)
    ensures out == MarkRevoked(rs, sel)
    ensures count == |Where(rs, sel)|
  {
    out := [];
    count := 0;
    var i := 0;
    while i < |rs|
      invariant 0 <= i <= |rs|
      invariant out == MarkRevoked(rs[..i], sel)
      invariant count == |Where(rs[..i], sel)|
    {
      MarkStep(rs, i, sel);
      var next := MarkRow(sel, rs[i], out, count);
      out, count := next.0, next.1;
      i := i + 1;
    }
    assert rs[..|rs|] == rs;
  }

  /** The `refresh_tokens` table behind `RefreshTokenRepository`. */
  class RefreshTokenRepository {
    /** The rows, in insertion order. */
    var rows: seq<RefreshToken>

    predicate Valid()
      reads this
    {
      Distinct(rows)
    }

    constructor()
      ensures Valid() && rows == []
    {
      rows := [];
    }

    /** `findByToken`. */
    function FindByToken(token: string): (r: Option<RefreshToken>)
      reads this
      ensures r.None? <==> forall t :: t in rows ==> t.token != token
      ensures r.Some? ==> r.value in rows && r.value.token == token
    {
      First(rows, WithToken(token))
    }

    /** `findByUserId`. */
    function FindByUserId(userId: Uuid): (r: seq<RefreshToken>)
      reads this
      ensures forall t :: t in r <==> t in rows && t.userId == userId
    {
      Where(rows, OfUser(userId))
    }

    /** `findValidTokensByUserId`. */
    function FindValidTokensByUserId(userId: Uuid, now: Time): (r: seq<RefreshToken>)
      reads this
      ensures forall t :: t in r <==> t in rows && t.userId == userId && !t.revoked && t.expiresAt > now
    {
      Where(rows, ValidFor(userId, now))
    }

    /** `countValidTokensByUserId`: the size of the valid-token query. */
    function CountValidTokensByUserId(userId: Uuid, now: Time): (n: nat)
      reads this
      ensures n == |FindValidTokensByUserId(userId, now)|
      ensures n <= |rows|
    {
      |Where(rows, ValidFor(userId, now))|
    }

    /** `findExpiredTokens`. */
    function FindExpiredTokens(now: Time): (r: seq<RefreshToken>)
      reads this
      ensures forall t :: t in r <==> t in rows && t.expiresAt <= now
    {
      Where(rows, ExpiredBy(now))
    }

    /** `save` of a new token; its id and its value are fresh. */
    method Save(t: RefreshToken)
      requires Valid()
      requires forall u :: u in rows ==> u.id != t.id && u.token != t.token
      modifies this
      ensures Valid() && rows == old(rows) + [t]
    {
      rows := rows + [t];
    }

    /** The UPDATE statement behind the revoke queries: revokes the selected
        rows in place and returns how many it matched. */
    method RevokeWhere(sel: Selector) returns (count: nat)
      requires Valid()
      modifies this
      ensures Valid()
      ensures rows == MarkRevoked(old(rows), sel)
      ensures count == |Where(old(rows), sel)|
    {
      var out;
      out, count := Mark(rows, sel);
      MarkRevokedKeepsDistinct(rows, sel);
      rows := out;
    }

    /** The DELETE statement behind the delete queries: removes the selected
        rows and returns how many it removed. */
    method DeleteWhere(sel: Selector) returns (count: nat)
      requires Valid()
      modifies this
      ensures Valid()
      ensures rows == Where(old(rows), Not(sel))
      ensures count == |Where(old(rows), sel)| == |old(rows)| - |rows|
    {
      var kept;
      kept, count := Sift(rows, sel);
      WhereSplits(rows, sel);
      WhereKeepsDistinct(rows, Not(sel));
      rows := kept;
    }

    /** `revokeAllTokensByUserId`: every row of the user is revoked and no
        other row changes; returns the number of the user's rows. */
    method RevokeAllTokensByUserId(userId: Uuid) returns (count: nat)
      requires Valid()
      modifies this
      ensures Valid()
      ensures rows == MarkRevoked(old(rows), OfUser(userId))
      ensures count == |old(FindByUserId(userId))|
      ensures forall t :: t in rows && t.userId == userId ==> t.revoked
    {
      count := RevokeWhere(OfUser(userId));
    }

    /** `revokeTokenByToken`: revokes the row with that value, of which there
        is at most one. */
    method RevokeTokenByToken(token: string) returns (count: nat)
      requires Valid()
      modifies this
      ensures Valid()
      ensures rows == MarkRevoked(old(rows), WithToken(token))
      ensures count <= 1
      ensures count == 1 <==> old(FindByToken(token)).Some?
    {
      AtMostOneRowPerToken(rows, token);
      ghost var matched := Where(rows, WithToken(token));
      if matched != [] {
        assert matched[0] in matched;
      }
      count := RevokeWhere(WithToken(token));
    }

    /** `deleteExpiredTokens`: removes exactly the rows expiring at or before
        the given time. */
    method DeleteExpiredTokens(expirationTime: Time) returns (count: nat)
      requires Valid()
      modifies this
      ensures Valid()
      ensures rows == Where(old(rows), Not(ExpiredBy(expirationTime)))
      ensures count == |old(FindExpiredTokens(expirationTime))|
      ensures FindExpiredTokens(expirationTime) == []
    {
      count := DeleteWhere(ExpiredBy(expirationTime));
      WhereNone(rows, ExpiredBy(expirationTime));
    }

    /** `deleteRevokedTokensOlderThan`: removes exactly the revoked rows
        created at or before the cutoff. */
    method DeleteRevokedTokensOlderThan(cutoffTime: Time) returns (count: nat)
      requires Valid()
      modifies this
      ensures Valid()
      ensures rows == Where(old(rows), Not(RevokedBy(cutoffTime)))
      ensures forall t :: t in rows <==> t in old(rows) && !(t.revoked && t.createdAt <= cutoffTime)
      ensures count == |old(rows)| - |rows|
    {
      count := DeleteWhere(RevokedBy(cutoffTime));
    }
  }
}
