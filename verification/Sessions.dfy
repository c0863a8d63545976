/**
 Sessions and refresh-token rotation (src/auth/services/session.service.ts, and the calls that drive it in
 src/auth/services/auth.service.ts).

 The table has one row per user and device. What a row should be is told by a log of what was issued and revoked:
 `Latest` reads from it the last token issued to a user and device since the last revocation. The table forgets (rows
 are overwritten and cleaned up); the log does not. Times are whole seconds.
 */
module Sessions {
  import opened Wrappers

  const REFRESH_TOKEN_TTL := 604_800

  datatype Kind = AccessToken | RefreshToken

  /** A signed token. `jti` is the identifier section 4.1.7 of RFC 7519 asks to be unique. */
  datatype Token = Token(jti: nat, userId: string, device: string, issuedAt: int, kind: Kind)

  /** The stored digest of a token; distinct tokens have distinct digests. */
  datatype Digest = Digest(token: Token)

  datatype Row = Row(id: nat, hash: Digest, expiresAt: int)

  /** The unique index of the table: user and device. */
  type Owner = (string, string)

  type Table = map<Owner, Row>

  datatype Error = InvalidToken | InvalidType | SessionNotFound | SessionExpired | UserNotFound

  // ---- what was issued and revoked ----

  datatype Entry =
    | Issued(token: Token)
    | Revoked(owner: Owner)
    | RevokedAll(userId: string)

  function OwnerOf(token: Token): Owner {
    (token.userId, token.device)
  }

  /** The last token issued to `owner` since its last revocation. */
  function Latest(log: seq<Entry>, owner: Owner): Option<Token> {
    if log == [] then None
    else
      match log[|log| - 1]
      case Issued(token) => if OwnerOf(token) == owner then Some(token) else Latest(log[..|log| - 1], owner)
      case Revoked(o) => if o == owner then None else Latest(log[..|log| - 1], owner)
      case RevokedAll(u) => if u == owner.0 then None else Latest(log[..|log| - 1], owner)
  }

  /** Identifiers are fresh: each issued one is larger than those before it, and smaller than `next`. */
  predicate Fresh(log: seq<Entry>, next: nat) {
    log == []
    || match log[|log| - 1]
       case Issued(token) => token.jti < next && token.kind == RefreshToken && Fresh(log[..|log| - 1], token.jti)
       case _ => Fresh(log[..|log| - 1], next)
  }

  lemma LatestOfAppend(log: seq<Entry>, e: Entry, owner: Owner)
    ensures Latest(log + [e], owner) ==
              match e
              case Issued(token) => if OwnerOf(token) == owner then Some(token) else Latest(log, owner)
              case Revoked(o) => if o == owner then None else Latest(log, owner)
              case RevokedAll(u) => if u == owner.0 then None else Latest(log, owner)
  {
    assert (log + [e])[..|log|] == log;
  }

  /** Users and devices are kept apart: what is issued or revoked for one changes nothing for another. */
  lemma DevicesAreApart(log: seq<Entry>, token: Token, userId: string, device: string, owner: Owner)
    ensures Latest(log + [Issued(token)], owner)
            == if token.userId == owner.0 && token.device == owner.1 then Some(token) else Latest(log, owner)
    ensures Latest(log + [Revoked((userId, device))], owner)
            == if userId == owner.0 && device == owner.1 then None else Latest(log, owner)
    ensures Latest(log + [RevokedAll(userId)], owner) == if userId == owner.0 then None else Latest(log, owner)
  {
    LatestOfAppend(log, Issued(token), owner);
    LatestOfAppend(log, Revoked((userId, device)), owner);
    LatestOfAppend(log, RevokedAll(userId), owner);
  }

  lemma FreshOfAppend(log: seq<Entry>, e: Entry, next: nat)
    ensures Fresh(log + [e], next) <==>
              match e
              case Issued(token) => token.jti < next && token.kind == RefreshToken && Fresh(log, token.jti)
              case _ => Fresh(log, next)
  {
    assert (log + [e])[..|log|] == log;
  }

  lemma {:induction false} FreshBound(log: seq<Entry>, next: nat, more: nat)
    requires Fresh(log, next) && next <= more
    ensures Fresh(log, more)
  {
    if log != [] && !log[|log| - 1].Issued? {
      FreshBound(log[..|log| - 1], next, more);
    }
  }

  lemma {:induction false} LatestWasIssued(log: seq<Entry>, owner: Owner, next: nat)
    requires Fresh(log, next) && Latest(log, owner).Some?
    ensures var t := Latest(log, owner).value; OwnerOf(t) == owner && t.jti < next && t.kind == RefreshToken
  {
    var init := log[..|log| - 1];
    match log[|log| - 1]
    case Issued(token) => if OwnerOf(token) != owner { LatestWasIssued(init, owner, token.jti); }
    case _ => LatestWasIssued(init, owner, next);
  }

  /** A token that has been superseded or revoked is never the latest again, whatever follows. */
  lemma {:induction false} NeverLatestAgain(log: seq<Entry>, longer: seq<Entry>, token: Token, middle: nat, next: nat)
    requires log <= longer && Fresh(log, middle) && Fresh(longer, next)
    requires token.jti < middle && Latest(log, OwnerOf(token)) != Some(token)
    requires forall i :: |log| <= i < |longer| && longer[i].Issued? ==> longer[i].token.jti >= middle
    ensures Latest(longer, OwnerOf(token)) != Some(token)
    decreases |longer|
  {
    if |log| == |longer| {
      assert log == longer;
    } else {
      var init := longer[..|longer| - 1];
      match longer[|longer| - 1] {
        case Issued(t) => NeverLatestAgain(log, init, token, middle, t.jti);
        case _ => NeverLatestAgain(log, init, token, middle, next);
      }
    }
  }

  // ---- the table ----

  /** What `refresh` asks of a token: its signature and expiry, its row, and the user. */
  predicate Accepted(table: Table, token: Token, signed: bool, userExists: bool, now: int) {
    && signed && now < token.issuedAt + REFRESH_TOKEN_TTL && token.kind == RefreshToken
    && (exists owner :: owner in table && table[owner].hash == Digest(token) && now <= table[owner].expiresAt)
    && userExists
  }

  function Cleaned(table: Table, now: int): Table {
    map owner | owner in table && now <= table[owner].expiresAt :: table[owner]
  }

  /** The nightly cleanup never changes whether a refresh succeeds, then or later. */
  lemma CleanupIsInvisible(table: Table, cleanedAt: int, token: Token, signed: bool, userExists: bool, now: int)
    requires cleanedAt <= now
    ensures Accepted(Cleaned(table, cleanedAt), token, signed, userExists, now)
            <==> Accepted(table, token, signed, userExists, now)
  {
    if owner :| owner in table && table[owner].hash == Digest(token) && now <= table[owner].expiresAt {
      assert owner in Cleaned(table, cleanedAt);
    }
  }

  /** The table holds, for each user and device, the latest token, unless it has expired and been cleaned up. */
  ghost predicate Agrees(table: Table, log: seq<Entry>, now: int) {
    && (forall owner :: owner in table ==>
          var latest := Latest(log, owner);
          && latest.Some? && OwnerOf(latest.value) == owner
          && table[owner].hash == Digest(latest.value)
          && table[owner].expiresAt == latest.value.issuedAt + REFRESH_TOKEN_TTL)
    && (forall owner :: owner !in table && Latest(log, owner).Some? ==>
          Latest(log, owner).value.issuedAt + REFRESH_TOKEN_TTL < now)
  }

  /** A token is accepted exactly when it is the latest of its user and device and has not expired. */
  lemma AcceptedIffLatest(table: Table, log: seq<Entry>, next: nat, token: Token,
                          signed: bool, userExists: bool, now: int)
    requires Agrees(table, log, now) && Fresh(log, next)
    ensures Accepted(table, token, signed, userExists, now)
            <==> signed && userExists && Latest(log, OwnerOf(token)) == Some(token)
                 && now < token.issuedAt + REFRESH_TOKEN_TTL
  {
    if Latest(log, OwnerOf(token)) == Some(token) {
      LatestWasIssued(log, OwnerOf(token), next);
      if OwnerOf(token) in table {
        assert table[OwnerOf(token)].hash == Digest(token);
      }
    }
  }

  /** Row ids are distinct and below the next one. */
  ghost predicate DistinctIds(table: Table, nextId: nat) {
    && (forall owner :: owner in table ==> table[owner].id < nextId)
    && (forall o, p :: o in table && p in table && o != p ==> table[o].id != table[p].id)
  }

  lemma AgreesLater(table: Table, log: seq<Entry>, now: int, later: int)
    requires Agrees(table, log, now) && now <= later
    ensures Agrees(table, log, later)
  {
  }

  lemma RowTells(table: Table, log: seq<Entry>, now: int, owner: Owner, token: Token)
    requires Agrees(table, log, now) && owner in table && table[owner].hash == Digest(token)
    ensures OwnerOf(token) == owner && table[owner].expiresAt == token.issuedAt + REFRESH_TOKEN_TTL
  {
  }

  class AuthService {
    var table: Table
    var nextJti: nat
    var nextId: nat
    ghost var log: seq<Entry>
    ghost var clock: int

    /** The clock has not gone back, and the table tells the truth. */
    ghost predicate Valid()
      reads this
    {
      Agrees(table, log, clock) && Fresh(log, nextJti) && DistinctIds(table, nextId)
    }

    constructor (ghost now: int)
      ensures Valid() && log == [] && clock == now
    {
      table, nextJti, nextId, log, clock := map[], 0, 0, [], now;
    }

    method SignRefreshToken(userId: string, device: string, now: int) returns (token: Token)
      modifies this`nextJti
      ensures token == Token(old(nextJti), userId, device, now, RefreshToken) && nextJti == old(nextJti) + 1
    {
      token := Token(nextJti, userId, device, now, RefreshToken);
      nextJti := nextJti + 1;
    }

    /** A login: sign a refresh token and upsert the session of the user and device. */
    method BuildAuthResponse(userId: string, device: string, now: int) returns (token: Token)
      requires Valid() && clock <= now
      modifies this
      ensures Valid() && clock == now && nextJti == old(nextJti) + 1
      ensures token == Token(old(nextJti), userId, device, now, RefreshToken)
      ensures log == old(log) + [Issued(token)]
    {
      hide Latest, Fresh;
      clock := now;
      token := SignRefreshToken(userId, device, now);
      ghost var before := table;
      var owner := (userId, device);
      var row := Row(nextId, Digest(token), now + REFRESH_TOKEN_TTL);
      if owner in table {
        row := row.(id := table[owner].id);
      } else {
        nextId := nextId + 1;
      }
      table := table[owner := row];
      RecordIssue(before, token);
    }

    /** Extend the log by a token just signed, and written to the table that was `before`. */
    ghost method RecordIssue(before: Table, token: Token)
      requires Agrees(before, log, clock) && Fresh(log, token.jti)
      requires token.jti < nextJti && token.kind == RefreshToken && OwnerOf(token) in table
      requires var row := table[OwnerOf(token)];
               && table == before[OwnerOf(token) := row]
               && row.hash == Digest(token) && row.expiresAt == token.issuedAt + REFRESH_TOKEN_TTL
      modifies this`log
      ensures log == old(log) + [Issued(token)] && Agrees(table, log, clock) && Fresh(log, nextJti)
    {
      FreshOfAppend(log, Issued(token), nextJti);
      forall owner { LatestOfAppend(log, Issued(token), owner); }
      log := log + [Issued(token)];
    }

    method FindByRefreshToken(token: Token) returns (r: Option<Owner>)
      ensures r.Some? ==> r.value in table && table[r.value].hash == Digest(token)
      ensures r.None? ==> forall owner :: owner in table ==> table[owner].hash != Digest(token)
    {
      if exists owner :: owner in table && table[owner].hash == Digest(token) {
        var owner :| owner in table && table[owner].hash == Digest(token);
        return Some(owner);
      }
      return None;
    }

    method RotateSession(owner: Owner, renewed: Token, now: int)
      requires Agrees(table, log, now) && DistinctIds(table, nextId) && clock == now
      requires Fresh(log, renewed.jti) && renewed.jti < nextJti
      requires owner in table && owner == OwnerOf(renewed) && renewed.kind == RefreshToken && renewed.issuedAt == now
      modifies this`table, this`log
      ensures table == old(table)[owner := Row(old(table)[owner].id, Digest(renewed), now + REFRESH_TOKEN_TTL)]
      ensures log == old(log) + [Issued(renewed)] && Agrees(table, log, clock) && Fresh(log, nextJti)
      ensures DistinctIds(table, nextId)
    {
      ghost var before := table;
      table := table[owner := table[owner].(hash := Digest(renewed), expiresAt := now + REFRESH_TOKEN_TTL)];
      RecordIssue(before, renewed);
    }

    /** Exchange a refresh token for a new one. */
    method Refresh(token: Token, signed: bool, userExists: bool, now: int) returns (r: Result<Token, Error>)
      requires Valid() && clock <= now
      modifies this
      ensures Valid() && clock == now
      ensures r.Success? <==> signed && userExists && Latest(old(log), OwnerOf(token)) == Some(token)
                              && now < token.issuedAt + REFRESH_TOKEN_TTL
      ensures r.Success? ==>
                && r.value == Token(old(nextJti), token.userId, token.device, now, RefreshToken)
                && nextJti == old(nextJti) + 1 && log == old(log) + [Issued(r.value)]
      ensures r.Failure? ==> log == old(log) && table == old(table) && nextJti == old(nextJti)
      ensures r.Failure? ==>
                r.error == if !signed || now >= token.issuedAt + REFRESH_TOKEN_TTL then InvalidToken
                           else if token.kind != RefreshToken then InvalidType
                           else if Latest(old(log), OwnerOf(token)) != Some(token) then SessionNotFound
                           else UserNotFound
    {
      AcceptedIffLatest(table, log, nextJti, token, signed, true, now);
      AgreesLater(table, log, clock, now);
      hide Latest, Fresh, Agrees, DistinctIds;
      clock := now;
      if !signed || now >= token.issuedAt + REFRESH_TOKEN_TTL { return Failure(InvalidToken); }
      if token.kind != RefreshToken { return Failure(InvalidType); }
      var found := FindByRefreshToken(token);
      if found.None? { return Failure(SessionNotFound); }
      var owner := found.value;
      RowTells(table, log, now, owner, token);
      if table[owner].expiresAt < now { return Failure(SessionExpired); }
      if !userExists { return Failure(UserNotFound); }
      var renewed := SignRefreshToken(owner.0, owner.1, now);
      RotateSession(owner, renewed, now);
      return Success(renewed);
    }

    /** Logout from one device. */
    method DeleteSession(userId: string, device: string)
      requires Valid()
      modifies this`table, this`log
      ensures Valid() && log == old(log) + [Revoked((userId, device))]
    {
      table := table - {(userId, device)};
      FreshOfAppend(log, Revoked((userId, device)), nextJti);
      forall owner { LatestOfAppend(log, Revoked((userId, device)), owner); }
      log := log + [Revoked((userId, device))];
    }

    /** Logout from every device. */
    method DeleteAllSessions(userId: string)
      requires Valid()
      modifies this`table, this`log
      ensures Valid() && log == old(log) + [RevokedAll(userId)]
    {
      table := map owner | owner in table && owner.0 != userId :: table[owner];
      FreshOfAppend(log, RevokedAll(userId), nextJti);
      forall owner { LatestOfAppend(log, RevokedAll(userId), owner); }
      log := log + [RevokedAll(userId)];
    }

    /** Revocation of one session by its id; a session of another user is not touched. */
    method DeleteSessionById(userId: string, id: nat)
      requires Valid()
      modifies this`table, this`log
      ensures Valid()
      ensures forall owner :: owner in old(table) && old(table)[owner].id == id && owner.0 == userId ==>
                log == old(log) + [Revoked(owner)]
      ensures !(exists owner :: owner in old(table) && old(table)[owner].id == id && owner.0 == userId) ==>
                log == old(log) && table == old(table)
    {
      if exists owner :: owner in table && table[owner].id == id && owner.0 == userId {
        var owner :| owner in table && table[owner].id == id && owner.0 == userId;
        DeleteSession(owner.0, owner.1);
      }
    }

    /** The nightly cleanup. */
    method CleanExpiredSessions(now: int)
      requires Valid() && clock <= now
      modifies this`table, this`clock
      ensures Valid() && clock == now && table == Cleaned(old(table), now)
      ensures forall owner :: owner in table <==> owner in old(table) && now <= old(table)[owner].expiresAt
      ensures forall owner :: owner in table ==> table[owner] == old(table)[owner]
    {
      table := Cleaned(table, now);
      clock := now;
    }
  }

  /**
   A token that was exchanged is refused ever after: in any state whose log extends the one its refresh left, it is not
   the latest.
   */
  lemma RefreshesOnce(log: seq<Entry>, token: Token, renewed: Token, longer: seq<Entry>, next: nat)
    requires Latest(log, OwnerOf(token)) == Some(token) && OwnerOf(renewed) == OwnerOf(token)
    requires log + [Issued(renewed)] <= longer && Fresh(longer, next)
    ensures Latest(longer, OwnerOf(token)) != Some(token)
  {
    IssuedLaterIsLarger(log + [Issued(renewed)], longer, next);
    FreshOfAppend(log, Issued(renewed), renewed.jti + 1);
    LatestWasIssued(log, OwnerOf(token), renewed.jti);
    LatestOfAppend(log, Issued(renewed), OwnerOf(token));
    NeverLatestAgain(log + [Issued(renewed)], longer, token, renewed.jti + 1, next);
  }

  lemma {:induction false} IssuedLaterIsLarger(log: seq<Entry>, longer: seq<Entry>, next: nat)
    requires log != [] && log <= longer && Fresh(longer, next) && log[|log| - 1].Issued?
    ensures var jti := log[|log| - 1].token.jti;
            && jti < next && Fresh(log, jti + 1)
            && (forall i :: |log| <= i < |longer| && longer[i].Issued? ==> longer[i].token.jti > jti)
    decreases |longer|
  {
    if |log| == |longer| {
      assert log == longer;
      FreshBound(log[..|log| - 1], log[|log| - 1].token.jti, log[|log| - 1].token.jti);
    } else {
      var init := longer[..|longer| - 1];
      match longer[|longer| - 1] {
        case Issued(t) => IssuedLaterIsLarger(log, init, t.jti);
        case _ => IssuedLaterIsLarger(log, init, next);
      }
    }
  }
}
