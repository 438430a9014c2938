/** Refresh-token rotation: token families, family revocation on replay, and logout.
    Each handler is one serialised transaction; digests are assumed fresh and collision-free.
 */
module RefreshTokens {
  import opened Options

  const FAMILY_LENGTH := 36

  type Time = int

  datatype RefreshToken = RefreshToken(
    user: string, digest: string, family: string, expires: Time, revoked: Option<Time>)

  /** The rows of `refresh_tokens`, in the order in which they were added. */
  type Rows = seq<RefreshToken>

  /** A digest that no row has seen, neither as digest nor as family. */
  predicate IsFresh(rows: Rows, digest: string) {
    && |digest| >= FAMILY_LENGTH
    && forall i :: 0 <= i < |rows| ==>
      rows[i].digest != digest && rows[i].family != digest[..FAMILY_LENGTH]
  }

  function Find(rows: Rows, digest: string): (i: nat)
    ensures i <= |rows|
    ensures i < |rows| ==> rows[i].digest == digest
    ensures forall k :: 0 <= k < i ==> rows[k].digest != digest
  {
    if rows == [] || rows[0].digest == digest then 0 else 1 + Find(rows[1..], digest)
  }

  function Issued(rows: Rows, user: string, digest: string, family: Option<string>, expires: Time): Rows
    requires |digest| >= FAMILY_LENGTH
  {
    rows + [RefreshToken(user, digest, if family.Some? then family.value else digest[..FAMILY_LENGTH],
                         expires, None)]
  }

  function Revoked(t: RefreshToken, now: Time): RefreshToken {
    if t.revoked.Some? then t else t.(revoked := Some(now))
  }

  function RevokeFamily(rows: Rows, family: string, now: Time): (rows': Rows)
    ensures |rows'| == |rows|
    ensures forall i :: 0 <= i < |rows| ==>
      rows'[i] == if rows[i].family == family then Revoked(rows[i], now) else rows[i]
  {
    seq(|rows|, i requires 0 <= i < |rows| =>
      if rows[i].family == family then Revoked(rows[i], now) else rows[i])
  }

  /** One request. `next` is the digest of the token the request may issue; `active` says
      whether the owner exists and is active. */
  datatype Request =
    | Login(user: string, next: string, now: Time)
    | Refresh(digest: string, next: string, active: bool, now: Time)
    | Logout(digest: string, now: Time)

  predicate Admissible(rows: Rows, r: Request) {
    r.Logout? || IsFresh(rows, r.next)
  }

  predicate Accepts(rows: Rows, r: Request) {
    r.Refresh? &&
    var i := Find(rows, r.digest);
    i < |rows| && rows[i].revoked.None? && rows[i].expires > r.now && r.active
  }

  function Handle(rows: Rows, r: Request, ttl: Time): Rows
    requires Admissible(rows, r)
  {
    match r
    case Login(user, next, now) => Issued(rows, user, next, None, now + ttl)
    case Refresh(digest, next, active, now) =>
      var i := Find(rows, digest);
      if i == |rows| then rows
      else if rows[i].revoked.Some? then RevokeFamily(rows, rows[i].family, now)
      else if rows[i].expires <= now || !active then rows
      else Issued(rows[i := rows[i].(revoked := Some(now))],
                  rows[i].user, next, Some(rows[i].family), now + ttl)
    case Logout(digest, now) =>
      var i := Find(rows, digest);
      if i < |rows| then rows[i := Revoked(rows[i], now)] else rows
  }

  class TokenStore {
    var rows: seq<RefreshToken>
    const ttl: Time

    constructor (ttl: Time)
      ensures rows == [] && this.ttl == ttl
    {
      rows := [];
      this.ttl := ttl;
    }

    method IssuePair(user: string, digest: string, family: Option<string>, now: Time)
      requires |digest| >= FAMILY_LENGTH
      modifies this
      ensures rows == Issued(old(rows), user, digest, family, now + ttl)
      ensures rows == old(rows) + [RefreshToken(
        user, digest, if family.Some? then family.value else digest[..36], now + ttl, None)]
    {
      var record := RefreshToken(
        user, digest, if family.Some? then family.value else digest[..FAMILY_LENGTH], now + ttl, None);
      rows := rows + [record];
    }

    method RevokeAll(family: string, now: Time)
      modifies this
      ensures rows == RevokeFamily(old(rows), family, now)
    {
      for k := 0 to |rows|
        invariant |rows| == |old(rows)|
        invariant forall i :: 0 <= i < k ==> rows[i] == RevokeFamily(old(rows), family, now)[i]
        invariant forall i :: k <= i < |rows| ==> rows[i] == old(rows)[i]
      {
        if rows[k].family == family {
          rows := rows[k := Revoked(rows[k], now)];
        }
      }
    }

    method RefreshPair(digest: string, next: string, active: bool, now: Time) returns (ok: bool)
      requires IsFresh(rows, next)
      modifies this
      ensures ok <==> Accepts(old(rows), Refresh(digest, next, active, now))
      ensures rows == Handle(old(rows), Refresh(digest, next, active, now), ttl)
      ensures ok ==>
        var i := Find(old(rows), digest);
        i < |old(rows)| &&
        var used := old(rows)[i];
        && used.digest == digest && used.revoked.None? && used.expires > now && active
        && rows == old(rows)[i := used.(revoked := Some(now))]
                   + [RefreshToken(used.user, next, used.family, now + ttl, None)]
      ensures !ok && (forall i :: 0 <= i < |old(rows)| && old(rows)[i].digest == digest ==> old(rows)[i].revoked.None?)
        ==> rows == old(rows)
      ensures !ok && (forall i, j :: 0 <= i < j < |old(rows)| ==> old(rows)[i].digest != old(rows)[j].digest) ==>
        forall i :: 0 <= i < |old(rows)| && old(rows)[i].digest == digest ==>
          && |rows| == |old(rows)|
          && (old(rows)[i].revoked.None? ==> old(rows)[i].expires <= now || !active)
          && (old(rows)[i].revoked.Some? ==> forall k :: 0 <= k < |rows| ==>
                rows[k] == if old(rows)[k].family == old(rows)[i].family && old(rows)[k].revoked.None?
                           then old(rows)[k].(revoked := Some(now)) else old(rows)[k])
    {
      var i := Find(rows, digest);
      if i == |rows| {
        return false;
      }
      var record := rows[i];
      if record.revoked.Some? {
        RevokeAll(record.family, now);
        return false;
      }
      if record.expires <= now {
        return false;
      }
      if !active {
        return false;
      }
      rows := rows[i := record.(revoked := Some(now))];
      IssuePair(record.user, next, Some(record.family), now);
      return true;
    }

    method LogoutToken(digest: string, now: Time)
      modifies this
      ensures rows == Handle(old(rows), Logout(digest, now), ttl)
      ensures |rows| == |old(rows)|
      ensures (forall i, j :: 0 <= i < j < |rows| ==> old(rows)[i].digest != old(rows)[j].digest) ==>
        forall i :: 0 <= i < |rows| ==>
          rows[i] == if old(rows)[i].digest == digest && old(rows)[i].revoked.None?
                     then old(rows)[i].(revoked := Some(now)) else old(rows)[i]
    {
      var i := Find(rows, digest);
      if i < |rows| && rows[i].revoked.None? {
        rows := rows[i := rows[i].(revoked := Some(now))];
      }
    }
  }

  // ---------------------------------------------------------------------------------------
  // Families are linear chains
  // ---------------------------------------------------------------------------------------

  /** Digests name rows, and a row that is followed by another of its family is revoked. */
  predicate Chained(rows: Rows) {
    && (forall i, j :: 0 <= i < j < |rows| ==> rows[i].digest != rows[j].digest)
    && (forall i, j :: 0 <= i < j < |rows| && rows[i].family == rows[j].family ==> rows[i].revoked.Some?)
  }

  predicate Newest(rows: Rows, i: nat)
    requires i < |rows|
  {
    forall j :: i < j < |rows| ==> rows[j].family != rows[i].family
  }

  predicate OthersRevoked(rows: Rows, i: nat)
    requires i < |rows|
  {
    forall j :: 0 <= j < |rows| && j != i && rows[j].family == rows[i].family ==> rows[j].revoked.Some?
  }

  lemma FindUnique(rows: Rows, i: nat)
    requires Chained(rows) && i < |rows|
    ensures Find(rows, rows[i].digest) == i
  {}

  /** Revoking rows, as every handler may, keeps the chains. */
  lemma RevokingKeepsChained(rows: Rows, rows': Rows)
    requires Chained(rows) && |rows'| == |rows|
    requires forall i :: 0 <= i < |rows| ==> rows'[i] == rows[i].(revoked := rows'[i].revoked)
    requires forall i :: 0 <= i < |rows| && rows[i].revoked.Some? ==> rows'[i].revoked.Some?
    ensures Chained(rows')
  {}

  /** Issuing keeps them when the family has no live token left. */
  lemma IssuingKeepsChained(rows: Rows, user: string, next: string, family: Option<string>, expires: Time)
    requires Chained(rows) && IsFresh(rows, next)
    requires family.Some? ==> forall i :: 0 <= i < |rows| && rows[i].family == family.value ==> rows[i].revoked.Some?
    ensures Chained(Issued(rows, user, next, family, expires))
  {}

  lemma SpendingKeepsChained(rows: Rows, i: nat, now: Time)
    requires Chained(rows) && i < |rows| && rows[i].revoked.None?
    ensures var rows' := rows[i := rows[i].(revoked := Some(now))];
            && Chained(rows')
            && forall j :: 0 <= j < |rows| && rows'[j].family == rows[i].family ==> rows'[j].revoked.Some?
  {
    RevokingKeepsChained(rows, rows[i := rows[i].(revoked := Some(now))]);
  }

  lemma HandleKeepsChained(rows: Rows, r: Request, ttl: Time)
    requires Chained(rows) && Admissible(rows, r)
    ensures Chained(Handle(rows, r, ttl))
  {
    var rows' := Handle(rows, r, ttl);
    match r
    case Login(user, next, now) => IssuingKeepsChained(rows, user, next, None, now + ttl);
    case Logout(_, _) =>
      hide Chained;
      RevokingKeepsChained(rows, rows');
    case Refresh(digest, next, active, now) =>
      var i := Find(rows, digest);
      hide Chained, Find;
      if Accepts(rows, r) {
        SpendingKeepsChained(rows, i, now);
        var spent := rows[i := rows[i].(revoked := Some(now))];
        assert IsFresh(spent, next);
        IssuingKeepsChained(spent, rows[i].user, next, Some(rows[i].family), now + ttl);
      } else if i < |rows| {
        RevokingKeepsChained(rows, RevokeFamily(rows, rows[i].family, now));
      }
  }

  predicate Run(rows: Rows, rs: seq<Request>, ttl: Time)
    decreases rs
  {
    rs == [] || (Admissible(rows, rs[0]) && Run(Handle(rows, rs[0], ttl), rs[1..], ttl))
  }

  function After(rows: Rows, rs: seq<Request>, ttl: Time): Rows
    requires Run(rows, rs, ttl)
    decreases rs
  {
    if rs == [] then rows else After(Handle(rows, rs[0], ttl), rs[1..], ttl)
  }

  lemma {:induction false} RunKeepsChained(rows: Rows, rs: seq<Request>, ttl: Time)
    requires Chained(rows) && Run(rows, rs, ttl)
    ensures Chained(After(rows, rs, ttl))
    decreases rs
  {
    if rs != [] {
      HandleKeepsChained(rows, rs[0], ttl);
      RunKeepsChained(Handle(rows, rs[0], ttl), rs[1..], ttl);
    }
  }

  /** In every run, an unrevoked token is the newest of its family, and the only one. */
  lemma LiveTokenIsNewestAndOnly(rs: seq<Request>, ttl: Time, i: nat)
    requires Run([], rs, ttl) && i < |After([], rs, ttl)| && After([], rs, ttl)[i].revoked.None?
    ensures Newest(After([], rs, ttl), i)
    ensures OthersRevoked(After([], rs, ttl), i)
  {
    RunKeepsChained([], rs, ttl);
  }

  predicate IsLive(rows: Rows, i: nat, r: Request)
    requires i < |rows| && r.Refresh?
  {
    && rows[i].digest == r.digest && Newest(rows, i)
    && rows[i].revoked.None? && rows[i].expires > r.now && r.active
  }

  /** A refresh succeeds exactly for the newest token of a family that is neither revoked nor
      expired and whose owner is active; its successor is then the newest. */
  lemma AcceptedIffLiveNewest(rows: Rows, r: Request, ttl: Time)
    requires Chained(rows) && Admissible(rows, r) && r.Refresh?
    ensures Accepts(rows, r) <==> exists i :: 0 <= i < |rows| && IsLive(rows, i, r)
    ensures Accepts(rows, r) ==>
      var rows' := Handle(rows, r, ttl);
      && |rows'| == |rows| + 1 && rows'[|rows|].digest == r.next
      && rows'[|rows|].family == rows[Find(rows, r.digest)].family
      && Newest(rows', |rows|) && rows'[|rows|].revoked.None?
  {
    if Accepts(rows, r) {
      assert IsLive(rows, Find(rows, r.digest), r);
    }
    forall i | 0 <= i < |rows| && IsLive(rows, i, r) ensures Accepts(rows, r) {
      FindUnique(rows, i);
    }
  }

  /** A token issued by a login or a refresh is accepted for exactly its time to live, and only
      a login starts a family. */
  lemma IssuedTokenLivesForTtl(rows: Rows, r: Request, ttl: Time, again: Request)
    requires Chained(rows) && Admissible(rows, r) && (r.Login? || Accepts(rows, r))
    requires again.Refresh? && again.digest == r.next && again.active
    ensures var rows' := Handle(rows, r, ttl);
            && |rows'| == |rows| + 1
            && rows'[|rows|].user == (if r.Login? then r.user else rows[Find(rows, r.digest)].user)
            && (r.Login? <==> forall i :: 0 <= i < |rows| ==> rows[i].family != rows'[|rows|].family)
            && (Accepts(rows', again) <==> again.now < r.now + ttl)
  {
    var rows' := Handle(rows, r, ttl);
    HandleKeepsChained(rows, r, ttl);
    FindUnique(rows', |rows|);
    if r.Refresh? {
      assert rows[Find(rows, r.digest)].family == rows'[|rows|].family;
    }
    hide Chained, Find;
  }

  // ---------------------------------------------------------------------------------------
  // A revoked family never comes back
  // ---------------------------------------------------------------------------------------

  predicate Dead(rows: Rows, family: string) {
    && (exists i :: 0 <= i < |rows| && rows[i].family == family)
    && (forall i :: 0 <= i < |rows| && rows[i].family == family ==> rows[i].revoked.Some?)
  }

  /** No request of the run is accepted for a token of the family. */
  predicate NeverAccepted(rows: Rows, rs: seq<Request>, ttl: Time, family: string)
    requires Run(rows, rs, ttl)
    decreases rs
  {
    rs != [] ==>
      && (Accepts(rows, rs[0]) ==> rows[Find(rows, rs[0].digest)].family != family)
      && NeverAccepted(Handle(rows, rs[0], ttl), rs[1..], ttl, family)
  }

  lemma HandleKeepsDead(rows: Rows, r: Request, ttl: Time, family: string)
    requires Admissible(rows, r) && Dead(rows, family)
    ensures Dead(Handle(rows, r, ttl), family)
    ensures Accepts(rows, r) ==> rows[Find(rows, r.digest)].family != family
  {
    hide Find;
    var i :| 0 <= i < |rows| && rows[i].family == family;
    var rows' := Handle(rows, r, ttl);
    assert i < |rows'| && rows'[i].family == family;
    if r.Login? || Accepts(rows, r) {
      assert rows'[|rows|].family != family;
    }
    assert forall k :: 0 <= k < |rows| ==>
      rows'[k].family == rows[k].family && (rows[k].revoked.Some? ==> rows'[k].revoked.Some?);
  }

  lemma {:induction false} DeadFamilyStaysDead(rows: Rows, rs: seq<Request>, ttl: Time, family: string)
    requires Run(rows, rs, ttl) && Dead(rows, family)
    ensures Dead(After(rows, rs, ttl), family)
    ensures NeverAccepted(rows, rs, ttl, family)
    decreases rs
  {
    if rs != [] {
      HandleKeepsDead(rows, rs[0], ttl, family);
      DeadFamilyStaysDead(Handle(rows, rs[0], ttl), rs[1..], ttl, family);
    }
  }

  /** Presenting a revoked token kills its family, whatever was live in it. */
  lemma ReplayKillsFamily(rows: Rows, r: Request, ttl: Time, rs: seq<Request>)
    requires Admissible(rows, r) && r.Refresh?
    requires Find(rows, r.digest) < |rows| && rows[Find(rows, r.digest)].revoked.Some?
    requires Run(Handle(rows, r, ttl), rs, ttl)
    ensures NeverAccepted(Handle(rows, r, ttl), rs, ttl, rows[Find(rows, r.digest)].family)
  {
    var i := Find(rows, r.digest);
    assert Handle(rows, r, ttl)[i].family == rows[i].family;
    DeadFamilyStaysDead(Handle(rows, r, ttl), rs, ttl, rows[i].family);
  }

  /** Logging out the live token kills its family. */
  lemma LogoutKillsFamily(rows: Rows, r: Request, ttl: Time, rs: seq<Request>)
    requires Chained(rows) && r.Logout?
    requires Find(rows, r.digest) < |rows| && rows[Find(rows, r.digest)].revoked.None?
    requires Run(Handle(rows, r, ttl), rs, ttl)
    ensures NeverAccepted(Handle(rows, r, ttl), rs, ttl, rows[Find(rows, r.digest)].family)
  {
    var i := Find(rows, r.digest);
    assert Handle(rows, r, ttl)[i].family == rows[i].family;
    DeadFamilyStaysDead(Handle(rows, r, ttl), rs, ttl, rows[i].family);
  }

  /** A token is accepted at most once: presenting it again is a replay, at any later point. */
  lemma AcceptedTokenIsSpent(rows: Rows, r: Request, ttl: Time, rs: seq<Request>, again: Request)
    requires Chained(rows) && Admissible(rows, r) && Accepts(rows, r)
    requires Run(Handle(rows, r, ttl), rs, ttl) && again.Refresh? && again.digest == r.digest
    ensures var later := After(Handle(rows, r, ttl), rs, ttl);
            && Find(later, again.digest) < |later| && later[Find(later, again.digest)].revoked.Some?
            && !Accepts(later, again)
  {
    HandleKeepsChained(rows, r, ttl);
    var i := Find(rows, r.digest);
    RevokedStaysRevoked(Handle(rows, r, ttl), rs, ttl, i);
    FindUnique(After(Handle(rows, r, ttl), rs, ttl), i);
  }

  lemma HandleKeepsRevoked(rows: Rows, r: Request, ttl: Time, i: nat)
    requires Admissible(rows, r) && i < |rows| && rows[i].revoked.Some?
    ensures i < |Handle(rows, r, ttl)| && Handle(rows, r, ttl)[i] == rows[i]
  {}

  lemma {:induction false} RevokedStaysRevoked(rows: Rows, rs: seq<Request>, ttl: Time, i: nat)
    requires Chained(rows) && Run(rows, rs, ttl) && i < |rows| && rows[i].revoked.Some?
    ensures var later := After(rows, rs, ttl);
            && Chained(later) && i < |later| && later[i] == rows[i]
    decreases rs
  {
    hide Chained, Admissible, Handle;
    if rs != [] {
      HandleKeepsChained(rows, rs[0], ttl);
      HandleKeepsRevoked(rows, rs[0], ttl, i);
      RevokedStaysRevoked(Handle(rows, rs[0], ttl), rs[1..], ttl, i);
    }
  }
}
