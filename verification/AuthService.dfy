/** Login, refresh and logout as they execute: repository statements on the session rows, strung
    together by the store and the use cases inside one transactional session.
 */
module AuthService {
  import opened Common
  import opened Tokens
  import opened SessionStore
  import T = SessionTransactions

  type Reply<+T> = Result<T, AuthError>

  /** The configuration and the clock readings of one request: when it starts, when it makes its
      tokens, and when its insert is flushed. */
  datatype Moment = Moment(accounts: set<UserId>, lifetime: nat, start: int, made: int, flushed: int)

  function NewToken(m: Moment, u: UserId): Token {
    CreateToken(u, TokenType.Refresh, m.made, m.lifetime)
  }

  function ExpiresAt(m: Moment): int {
    m.made + m.lifetime * MICROS
  }

  // ---- Whole requests ----

  function ServeLogin(store: Store, m: Moment, u: UserId): (Store, Reply<Token>) {
    var op := LoginOp(u, Sha256(NewToken(m, u)), ExpiresAt(m));
    if u !in m.accounts then (store, Failure(InvalidCredentials))
    else if ExpiresAt(m) <= m.flushed || !Enabled(store, op) then (store, Failure(IntegrityViolation))
    else (Apply(store, op), Success(NewToken(m, u)))
  }

  function ServeRefresh(store: Store, m: Moment, token: Token): (Store, Reply<Token>) {
    var claims := VerifyToken(token, TokenType.Refresh, m.start);
    if claims.None? || claims.value.sub !in m.accounts then (store, Failure(InvalidCredentials))
    else
      var u := claims.value.sub;
      var op := RotateOp(u, Sha256(token), Sha256(NewToken(m, u)), m.start, ExpiresAt(m));
      if !IsActive(store, u, Sha256(token), m.start) then (store, Failure(InvalidCredentials))
      else if ExpiresAt(m) <= m.flushed || !Enabled(store, op) then (store, Failure(IntegrityViolation))
      else (Apply(store, op), Success(NewToken(m, u)))
  }

  /** Logging out never fails; without a live session for the token it does nothing. */
  function ServeLogout(store: Store, m: Moment, token: Token): Store {
    if VerifyToken(token, TokenType.Refresh, m.start).Some? && IsUnrevoked(store, Sha256(token))
    then Apply(store, LogoutOp(Sha256(token), m.start)) else store
  }

  // ---- Same-second collisions ----

  /** Every row holds the hash of a refresh token made for its user. */
  ghost predicate Minted(store: Store, lifetime: nat) {
    forall h :: h in store ==> exists made :: h == Sha256(CreateToken(store[h].user, TokenType.Refresh, made, lifetime))
  }

  lemma ServedStaysMinted(store: Store, m: Moment, u: UserId, token: Token)
    requires Minted(store, m.lifetime)
    ensures Minted(ServeLogin(store, m, u).0, m.lifetime)
    ensures Minted(ServeRefresh(store, m, token).0, m.lifetime)
    ensures Minted(ServeLogout(store, m, token), m.lifetime)
  {
  }

  /** A session of this user that was issued in this whole second. */
  ghost predicate IssuedInSecond(store: Store, u: UserId, second: int) {
    exists h :: h in store && store[h].user == u && h.token.Signed? && h.token.claims.iat == second
  }

  lemma CollisionIsSameSecond(store: Store, m: Moment, u: UserId)
    requires Minted(store, m.lifetime)
    ensures Sha256(NewToken(m, u)) in store <==> IssuedInSecond(store, u, m.made / 1_000_000)
  {
  }

  // ---- What a caller sees ----

  /** A login needs an account, a session that outlives its insertion, and no other session of this
      user from the same second; it adds one live session that expires a lifetime later. */
  lemma LoginChanges(store: Store, m: Moment, u: UserId)
    requires Minted(store, m.lifetime)
    ensures var (store', reply) := ServeLogin(store, m, u);
            && (reply == Failure(InvalidCredentials) <==> u !in m.accounts)
            && (reply.Success? <==>
                  && u in m.accounts && m.flushed < m.made + m.lifetime * 1_000_000
                  && !IssuedInSecond(store, u, m.made / 1_000_000))
            && (reply.Failure? ==> store' == store && reply.error != Cancelled)
            && (reply.Success? ==>
                  && var made := m.made / 1_000_000;
                  && reply.value == Signed(Claims(u, TokenType.Refresh, made, made + m.lifetime))
                  && Sha256(reply.value) !in store
                  && store' == store[Sha256(reply.value) := Session(u, m.made + m.lifetime * 1_000_000, None)])
  {
    CollisionIsSameSecond(store, m, u);
  }

  /** The session of this token is the user's, unrevoked, and has not expired at this moment. */
  predicate Redeemable(store: Store, token: Token, at: int) {
    && token.Signed? && token.claims.kind == TokenType.Refresh && at < (token.claims.exp + 1) * 1_000_000
    && Sha256(token) in store && store[Sha256(token)].user == token.claims.sub
    && store[Sha256(token)].revokedAt == None && at < store[Sha256(token)].expires
  }

  /** Exactly when a refresh succeeds: the token is redeemable by an existing user, the new session
      outlives its insertion, and this user got no other session in the same second. A failed
      refresh, a collision included, leaves every session as it was. */
  lemma RefreshSucceedsExactly(store: Store, m: Moment, token: Token)
    requires Minted(store, m.lifetime)
    ensures var (store', reply) := ServeRefresh(store, m, token);
            var redeemable := Redeemable(store, token, m.start) && token.claims.sub in m.accounts;
            && (reply == Failure(InvalidCredentials) <==> !redeemable)
            && (reply.Success? <==>
                  && redeemable && m.flushed < m.made + m.lifetime * 1_000_000
                  && !IssuedInSecond(store, token.claims.sub, m.made / 1_000_000))
            && (reply.Failure? ==> store' == store && reply.error != Cancelled)
  {
    VerifiedIsSigned(token, TokenType.Refresh, m.start);
    if token.Signed? { CollisionIsSameSecond(store, m, token.claims.sub); }
  }

  /** A successful refresh stamps the old session and adds one live session of the same user, which
      expires a lifetime later. */
  lemma RefreshChanges(store: Store, m: Moment, token: Token)
    requires ServeRefresh(store, m, token).1.Success?
    ensures var (store', reply) := ServeRefresh(store, m, token);
            && token.Signed? && Sha256(token) in store && Sha256(reply.value) !in store
            && var u := token.claims.sub;
            && reply.value == Signed(Claims(u, TokenType.Refresh, m.made / 1_000_000, m.made / 1_000_000 + m.lifetime))
            && store' == store[Sha256(token) := Session(u, store[Sha256(token)].expires, Some(m.start))]
                              [Sha256(reply.value) := Session(u, m.made + m.lifetime * 1_000_000, None)]
  {
  }

  /** A logout stamps the session of a verifying token, if it is there and unrevoked, whoever sends
      it, and does nothing else. */
  lemma LogoutChanges(store: Store, m: Moment, token: Token)
    ensures var live := token.Signed? && token.claims.kind == TokenType.Refresh
                        && m.start < (token.claims.exp + 1) * 1_000_000
                        && Sha256(token) in store && store[Sha256(token)].revokedAt == None;
            ServeLogout(store, m, token) ==
              if live then store[Sha256(token) := store[Sha256(token)].(revokedAt := Some(m.start))] else store
  {
    VerifiedIsSigned(token, TokenType.Refresh, m.start);
  }

  /** The token of a login can be refreshed for exactly one lifetime. */
  lemma LoginLastsItsLifetime(store: Store, m: Moment, u: UserId, later: Moment)
    requires ServeLogin(store, m, u).1.Success? && later.lifetime == m.lifetime && m.made <= later.start
    requires var store' := ServeLogin(store, m, u).0;
             u in later.accounts && later.flushed < later.made + later.lifetime * 1_000_000
             && Sha256(NewToken(later, u)) !in store'
    ensures var (store', reply) := ServeLogin(store, m, u);
            ServeRefresh(store', later, reply.value).1.Success? <==> later.start < m.made + m.lifetime * 1_000_000
  {
  }

  /** So can the token of a refresh, counted from that refresh. */
  lemma RefreshLastsItsLifetime(store: Store, m: Moment, token: Token, later: Moment)
    requires ServeRefresh(store, m, token).1.Success? && later.lifetime == m.lifetime && m.made <= later.start
    requires var store' := ServeRefresh(store, m, token).0;
             token.claims.sub in later.accounts && later.flushed < later.made + later.lifetime * 1_000_000
             && Sha256(NewToken(later, token.claims.sub)) !in store'
    ensures var (store', reply) := ServeRefresh(store, m, token);
            ServeRefresh(store', later, reply.value).1.Success? <==> later.start < m.made + m.lifetime * 1_000_000
  {
    RefreshChanges(store, m, token);
  }

  /** A token cannot be refreshed in the second it was issued: its session stays live. */
  lemma NoRefreshInOwnSecond(store: Store, m: Moment, u: UserId, made: int)
    requires made / 1_000_000 == m.made / 1_000_000
    requires var h := Sha256(CreateToken(u, TokenType.Refresh, made, m.lifetime)); IsUnrevoked(store, h)
    ensures var token := CreateToken(u, TokenType.Refresh, made, m.lifetime);
            && ServeRefresh(store, m, token).1.Failure?
            && IsUnrevoked(ServeRefresh(store, m, token).0, Sha256(token))
  {
  }

  /** Logging out a token that was already rotated leaves the whole table, its successor
      included, untouched; logging out a live one stops it from ever refreshing. */
  lemma LogoutEffect(store: Store, m: Moment, token: Token, later: Moment)
    ensures !IsUnrevoked(store, Sha256(token)) ==> ServeLogout(store, m, token) == store
    ensures VerifyToken(token, TokenType.Refresh, m.start).Some? ==>
              var after := ServeLogout(store, m, token);
              ServeRefresh(after, later, token) == (after, Failure(InvalidCredentials))
  {
  }

  // ---- The interleaving machine run without company ----

  /** The clock a statement of this request reads. */
  function ClockFor(tx: T.Tx, m: Moment): int {
    match tx.pc
    case VerifyOld => m.start
    case VerifyOut => m.start
    case ReadAccount => m.made
    case ReadUser => m.made
    case _ => m.flushed
  }

  /** Up to k statements of one request with nobody else about. */
  function StepsAlone(s: T.State, tx: T.Tx, m: Moment, k: nat): T.Tx
    decreases k
  {
    if k == 0 || T.Finished(tx) || tx.pc.Ready? then tx
    else StepsAlone(s, T.Step(s, tx, ClockFor(tx, m)), m, k - 1)
  }

  lemma LoginAlone(s: T.State, m: Moment, u: UserId)
    requires s.accounts == m.accounts && s.lifetime == m.lifetime
    ensures var end := StepsAlone(s, T.NewTx(T.Login(u)), m, 2);
            var (store', reply) := ServeLogin(s.store, m, u);
            match reply {
              case Success(_) => end.pc == T.Ready && s.store + end.writes == store'
              case Failure(e) => end.pc == T.Aborted(e) && store' == s.store
            }
  {
    var tx1 := T.Step(s, T.NewTx(T.Login(u)), m.made);
    assert StepsAlone(s, T.NewTx(T.Login(u)), m, 2) == StepsAlone(s, tx1, m, 1);
  }

  lemma RefreshAlone(s: T.State, m: Moment, token: Token)
    requires s.accounts == m.accounts && s.lifetime == m.lifetime
    ensures var end := StepsAlone(s, T.NewTx(T.Refresh(token)), m, 4);
            var (store', reply) := ServeRefresh(s.store, m, token);
            match reply {
              case Success(_) => end.pc == T.Ready && s.store + end.writes == store'
              case Failure(e) => end.pc == T.Aborted(e) && store' == s.store
            }
  {
    var tx1 := T.Step(s, T.NewTx(T.Refresh(token)), m.start);
    var tx2 := T.Step(s, tx1, m.made);
    var tx3 := T.Step(s, tx2, m.flushed);
    assert StepsAlone(s, T.NewTx(T.Refresh(token)), m, 4) == StepsAlone(s, tx1, m, 3);
    assert T.Finished(tx1) || StepsAlone(s, tx1, m, 3) == StepsAlone(s, tx2, m, 2);
    assert T.Finished(tx2) || StepsAlone(s, tx2, m, 2) == StepsAlone(s, tx3, m, 1);
  }

  lemma LogoutAlone(s: T.State, m: Moment, token: Token)
    ensures var end := StepsAlone(s, T.NewTx(T.Logout(token)), m, 2);
            end.pc == T.Ready && s.store + end.writes == ServeLogout(s.store, m, token)
  {
    var tx1 := T.Step(s, T.NewTx(T.Logout(token)), m.start);
    assert StepsAlone(s, T.NewTx(T.Logout(token)), m, 2) == StepsAlone(s, tx1, m, 1);
  }

  // ---- The code ----

  /** The row as it was before a statement touched it; None if it did not exist. */
  datatype Undo = RowWas(hash: TokenHash, row: Option<Session>)

  /** The table with the undo log played back, newest entry first. */
  function Rewind(rows: Store, undo: seq<Undo>): Store
    decreases |undo|
  {
    if undo == [] then rows
    else Rewind(Put(rows, undo[|undo| - 1].hash, undo[|undo| - 1].row), undo[..|undo| - 1])
  }

  /** The repository on its transactional session. */
  class SessionRepository {
    var rows: Store
    var undo: seq<Undo>
    ghost var committed: Store

    /** Rolling back now would restore the committed table. */
    ghost predicate Valid()
      reads this
    {
      Rewind(rows, undo) == committed
    }

    ghost predicate Idle()
      reads this
    {
      undo == [] && rows == committed
    }

    constructor (store: Store)
      ensures Idle() && rows == store
    {
      rows, undo, committed := store, [], store;
    }

    method Write(h: TokenHash, session: Session)
      requires Valid()
      modifies this
      ensures Valid() && committed == old(committed)
      ensures rows == old(rows)[h := session]
    {
      assert (undo + [RowWas(h, RowAt(rows, h))])[..|undo|] == undo;
      PutBack(rows, h, Some(session));
      undo := undo + [RowWas(h, RowAt(rows, h))];
      rows := rows[h := session];
    }

    method Commit()
      modifies this
      ensures rows == old(rows) && committed == rows && Idle()
    {
      undo, committed := [], rows;
    }

    method Rollback()
      requires Valid()
      modifies this
      ensures rows == old(committed) && committed == old(committed) && Idle()
    {
      while undo != []
        invariant Valid() && committed == old(committed)
        decreases |undo|
      {
        var last := undo[|undo| - 1];
        rows, undo := Put(rows, last.hash, last.row), undo[..|undo| - 1];
      }
    }

    /** Flushing the new row fails on its expiry check or on the unique token hash. */
    method Create(u: UserId, h: TokenHash, expires: int, flushed: int) returns (r: Reply<()>)
      requires Valid()
      modifies this
      ensures Valid() && committed == old(committed)
      ensures r == if expires <= flushed || h in old(rows) then Failure(IntegrityViolation) else Success(())
      ensures rows == if r.Success? then old(rows)[h := Session(u, expires, None)] else old(rows)
    {
      if expires <= flushed || h in rows { return Failure(IntegrityViolation); }
      Write(h, Session(u, expires, None));
      return Success(());
    }

    method Revoke(h: TokenHash, now: int)
      requires Valid()
      modifies this
      ensures Valid() && committed == old(committed)
      ensures rows == if IsUnrevoked(old(rows), h) then old(rows)[h := Revoked(old(rows)[h], now)] else old(rows)
    {
      if h in rows && rows[h].revokedAt.None? { Write(h, rows[h].(revokedAt := Some(now))); }
    }

    method RevokeForUser(u: UserId, h: TokenHash, now: int) returns (updated: bool)
      requires Valid()
      modifies this
      ensures Valid() && committed == old(committed)
      ensures updated <==> IsActive(old(rows), u, h, now)
      ensures rows == if updated then old(rows)[h := Revoked(old(rows)[h], now)] else old(rows)
    {
      updated := h in rows && rows[h].user == u && rows[h].revokedAt.None? && rows[h].expires > now;
      if updated { Write(h, rows[h].(revokedAt := Some(now))); }
    }
  }

  class RefreshSessionStore {
    const repository: SessionRepository

    constructor (r: SessionRepository)
      ensures repository == r
    {
      repository := r;
    }

    /** Spend the old session, then add the new one; a failure may come between the two. */
    method Rotate(u: UserId, spent: Token, added: Token, expires: int, now: int, flushed: int) returns (r: Reply<()>)
      requires repository.Valid()
      modifies repository
      ensures repository.Valid() && repository.committed == old(repository.committed)
      ensures r == if !IsActive(old(repository.rows), u, Sha256(spent), now) then Failure(InvalidCredentials)
                   else if expires <= flushed || Sha256(added) in old(repository.rows) then Failure(IntegrityViolation)
                   else Success(())
      ensures r.Success? ==>
                repository.rows == Apply(old(repository.rows), RotateOp(u, Sha256(spent), Sha256(added), now, expires))
    {
      var updated := repository.RevokeForUser(u, Sha256(spent), now);
      if !updated { return Failure(InvalidCredentials); }
      r := repository.Create(u, Sha256(added), expires, flushed);
    }
  }

  class AuthUseCases {
    const store: RefreshSessionStore

    constructor (s: RefreshSessionStore)
      ensures store == s
    {
      store := s;
    }

    method Login(m: Moment, u: UserId) returns (r: Reply<Token>)
      requires store.repository.Valid()
      modifies store.repository
      ensures store.repository.Valid() && store.repository.committed == old(store.repository.committed)
      ensures r == ServeLogin(old(store.repository.rows), m, u).1
      ensures r.Success? ==> store.repository.rows == ServeLogin(old(store.repository.rows), m, u).0
    {
      if u !in m.accounts { return Failure(InvalidCredentials); }
      var token := NewToken(m, u);
      var created := store.repository.Create(u, Sha256(token), ExpiresAt(m), m.flushed);
      return if created.Success? then Success(token) else Failure(created.error);
    }

    method Logout(m: Moment, token: Token)
      requires store.repository.Valid()
      modifies store.repository
      ensures store.repository.Valid() && store.repository.committed == old(store.repository.committed)
      ensures store.repository.rows == ServeLogout(old(store.repository.rows), m, token)
    {
      if VerifyToken(token, TokenType.Refresh, m.start).None? { return; }
      store.repository.Revoke(Sha256(token), m.start);
    }

    method Refresh(m: Moment, token: Token) returns (r: Reply<Token>)
      requires store.repository.Valid()
      modifies store.repository
      ensures store.repository.Valid() && store.repository.committed == old(store.repository.committed)
      ensures r == ServeRefresh(old(store.repository.rows), m, token).1
      ensures r.Success? ==> store.repository.rows == ServeRefresh(old(store.repository.rows), m, token).0
    {
      var claims := VerifyToken(token, TokenType.Refresh, m.start);
      if claims.None? { return Failure(InvalidCredentials); }
      var u := claims.value.sub;
      if u !in m.accounts { return Failure(InvalidCredentials); }
      var added := NewToken(m, u);
      var rotated := store.Rotate(u, token, added, ExpiresAt(m), m.start, m.flushed);
      return if rotated.Success? then Success(added) else Failure(rotated.error);
    }
  }

  /** A refresh inside the transactional session: when it raises, the undo log restores the spent
      session. */
  method HandleRefresh(service: AuthUseCases, m: Moment, token: Token) returns (r: Reply<Token>)
    requires service.store.repository.Idle()
    modifies service.store.repository
    ensures service.store.repository.Idle()
    ensures (service.store.repository.committed, r) == ServeRefresh(old(service.store.repository.committed), m, token)
  {
    r := service.Refresh(m, token);
    if r.Success? { service.store.repository.Commit(); } else { service.store.repository.Rollback(); }
  }

  method HandleLogin(service: AuthUseCases, m: Moment, u: UserId) returns (r: Reply<Token>)
    requires service.store.repository.Idle()
    modifies service.store.repository
    ensures service.store.repository.Idle()
    ensures (service.store.repository.committed, r) == ServeLogin(old(service.store.repository.committed), m, u)
  {
    r := service.Login(m, u);
    if r.Success? { service.store.repository.Commit(); } else { service.store.repository.Rollback(); }
  }

  method HandleLogout(service: AuthUseCases, m: Moment, token: Token)
    requires service.store.repository.Idle()
    modifies service.store.repository
    ensures service.store.repository.Idle()
    ensures service.store.repository.committed == ServeLogout(old(service.store.repository.committed), m, token)
  {
    service.Logout(m, token);
    service.store.repository.Commit();
  }
}
