/** Logins, refreshes and logouts in flight over the refresh_sessions table, one statement at a
    time, under the same isolation as Transactions: queries and guards read committed rows, a
    guard that fails does not wait, a written row stays locked to the end of the transaction, and
    an insert waits for any transaction holding the same unique token hash.
 */
module SessionTransactions {
  import opened Common
  import opened Tokens
  import opened SessionStore
  import opened CommitLog

  /** A login request stands for one whose password check succeeds. */
  datatype Request = Login(user: UserId) | Refresh(token: Token) | Logout(token: Token)

  datatype Pc =
    | ReadAccount | VerifyOld | ReadUser | SpendOld | InsertNew | VerifyOut | RevokeOut
    | Ready | Committed | Aborted(error: AuthError)

  datatype Tx = Tx(req: Request, pc: Pc, user: UserId, now: int, minted: Token, expires: int,
                   writes: map<TokenHash, Session>, locks: set<TokenHash>)

  /** `accounts` are the registered users, `lifetime` the configured refresh lifetime in seconds. */
  datatype State = State(accounts: set<UserId>, lifetime: nat, store: Store, txs: map<TxId, Tx>,
                         log: seq<Entry<SessionOp>>)

  datatype Action = Begin(t: TxId, req: Request) | Statement(t: TxId, clock: int) | Commit(t: TxId) | Cancel(t: TxId)

  predicate Finished(tx: Tx) {
    tx.pc.Committed? || tx.pc.Aborted?
  }

  function NewTx(req: Request): Tx {
    var pc := if req.Login? then ReadAccount else if req.Refresh? then VerifyOld else VerifyOut;
    Tx(req, pc, 0, 0, Foreign(""), 0, map[], {})
  }

  function Raise(tx: Tx, error: AuthError): Tx {
    tx.(pc := Aborted(error), writes := map[], locks := {})
  }

  function Write(tx: Tx, h: TokenHash, session: Session): Tx {
    tx.(writes := tx.writes[h := session], locks := tx.locks + {h})
  }

  /** The new refresh token and its session's expiry are computed before anything is written. */
  function IssueTokens(tx: Tx, user: UserId, clock: int, lifetime: nat): Tx {
    tx.(user := user, minted := CreateToken(user, TokenType.Refresh, clock, lifetime),
        expires := clock + lifetime * MICROS)
  }

  function Step(s: State, tx: Tx, clock: int): Tx {
    match tx.pc
    case ReadAccount =>
      if tx.req.Login? && tx.req.user in s.accounts
      then IssueTokens(tx, tx.req.user, clock, s.lifetime).(pc := InsertNew)
      else Raise(tx, InvalidCredentials)
    case VerifyOld =>
      if tx.req.Refresh? && VerifyToken(tx.req.token, TokenType.Refresh, clock).Some?
      then tx.(user := tx.req.token.claims.sub, now := clock, pc := ReadUser)
      else Raise(tx, InvalidCredentials)
    case ReadUser =>
      if tx.user in s.accounts then IssueTokens(tx, tx.user, clock, s.lifetime).(pc := SpendOld)
      else Raise(tx, InvalidCredentials)
    case SpendOld =>
      if tx.req.Refresh? && IsActive(s.store, tx.user, Sha256(tx.req.token), tx.now)
      then var spent := Sha256(tx.req.token);
           Write(tx, spent, Revoked(s.store[spent], tx.now)).(pc := InsertNew)
      else Raise(tx, InvalidCredentials)
    case InsertNew =>
      if tx.expires <= clock || Sha256(tx.minted) in s.store then Raise(tx, IntegrityViolation)
      else Write(tx, Sha256(tx.minted), Session(tx.user, tx.expires, None)).(pc := Ready)
    case VerifyOut =>
      if tx.req.Logout? && VerifyToken(tx.req.token, TokenType.Refresh, clock).Some?
      then tx.(now := clock, pc := RevokeOut)
      else tx.(pc := Ready)
    case RevokeOut =>
      if tx.req.Logout? && IsUnrevoked(s.store, Sha256(tx.req.token))
      then var h := Sha256(tx.req.token);
           Write(tx, h, Revoked(s.store[h], tx.now)).(pc := Ready)
      else tx.(pc := Ready)
    case _ => tx
  }

  /** The row the next statement waits for; none when its guard fails. */
  function Needed(s: State, tx: Tx, clock: int): set<TokenHash> {
    match tx.pc
    case SpendOld =>
      if tx.req.Refresh? && IsActive(s.store, tx.user, Sha256(tx.req.token), tx.now) then {Sha256(tx.req.token)} else {}
    case InsertNew => if tx.expires <= clock then {} else {Sha256(tx.minted)}
    case RevokeOut =>
      if tx.req.Logout? && IsUnrevoked(s.store, Sha256(tx.req.token)) then {Sha256(tx.req.token)} else {}
    case _ => {}
  }

  predicate LockedByOther(s: State, t: TxId, h: TokenHash) {
    exists t' :: t' in s.txs && t' != t && h in s.txs[t'].locks
  }

  predicate Can(s: State, a: Action) {
    match a
    case Begin(t, _) => t !in s.txs
    case Statement(t, clock) =>
      && t in s.txs && !Finished(s.txs[t]) && !s.txs[t].pc.Ready?
      && forall h :: h in Needed(s, s.txs[t], clock) ==> !LockedByOther(s, t, h)
    case Commit(t) => t in s.txs && s.txs[t].pc.Ready?
    case Cancel(t) => t in s.txs && !Finished(s.txs[t])
  }

  function OpOf(tx: Tx): SessionOp {
    match tx.req
    case Login(u) => LoginOp(u, Sha256(tx.minted), tx.expires)
    case Refresh(token) => RotateOp(tx.user, Sha256(token), Sha256(tx.minted), tx.now, tx.expires)
    case Logout(token) => if tx.writes == map[] then SkipOp else LogoutOp(Sha256(token), tx.now)
  }

  function Do(s: State, a: Action): State
    requires Can(s, a)
  {
    match a
    case Begin(t, req) => s.(txs := s.txs[t := NewTx(req)])
    case Statement(t, clock) => s.(txs := s.txs[t := Step(s, s.txs[t], clock)])
    case Commit(t) =>
      s.(store := s.store + s.txs[t].writes,
         txs := s.txs[t := s.txs[t].(pc := Committed, locks := {})],
         log := s.log + [Entry(t, OpOf(s.txs[t]))])
    case Cancel(t) => s.(txs := s.txs[t := Raise(s.txs[t], Cancelled)])
  }

  predicate CanRun(s: State, actions: seq<Action>)
    decreases |actions|
  {
    actions == [] || (Can(s, actions[0]) && CanRun(Do(s, actions[0]), actions[1..]))
  }

  function Run(s: State, actions: seq<Action>): State
    requires CanRun(s, actions)
    decreases |actions|
  {
    if actions == [] then s else Run(Do(s, actions[0]), actions[1..])
  }

  /** The scheduler can abort any unfinished transaction; nothing of it is left. */
  lemma CancelLeavesNothing(s: State, t: TxId)
    requires t in s.txs && !Finished(s.txs[t])
    ensures Can(s, Cancel(t))
    ensures var s' := Do(s, Cancel(t));
            && s'.store == s.store && s'.log == s.log && s'.txs.Keys == s.txs.Keys && s'.txs[t].locks == {}
            && s'.txs[t].pc == Aborted(Cancelled) && s'.txs[t].writes == map[]
            && forall t' :: t' in s.txs && t' != t ==> s'.txs[t'] == s.txs[t']
  {
  }

  // ---- The invariant ----

  predicate TxOk(store: Store, tx: Tx) {
    match tx.pc
    case InsertNew =>
      (match tx.req
       case Login(u) => tx.user == u && tx.writes == map[] && tx.locks == {}
       case Refresh(token) =>
         && IsActive(store, tx.user, Sha256(token), tx.now)
         && tx.writes == map[Sha256(token) := Revoked(store[Sha256(token)], tx.now)]
         && tx.locks == {Sha256(token)}
       case Logout(_) => false)
    case Ready =>
      && Enabled(store, OpOf(tx)) && store + tx.writes == Apply(store, OpOf(tx)) && tx.locks == tx.writes.Keys
      && (tx.req.Login? || tx.req.Refresh? ==> Sha256(tx.minted) in tx.locks)
      && (tx.req.Refresh? || (tx.req.Logout? && tx.writes != map[]) ==> Sha256(tx.req.token) in tx.locks)
    case Committed => tx.locks == {}
    case Aborted(_) => tx.locks == {}
    case _ =>
      && tx.writes == map[] && tx.locks == {}
      && (tx.pc.ReadAccount? ==> tx.req.Login?) && (tx.pc.VerifyOut? || tx.pc.RevokeOut? ==> tx.req.Logout?)
      && (tx.pc.VerifyOld? || tx.pc.ReadUser? || tx.pc.SpendOld? ==> tx.req.Refresh?)
  }

  ghost predicate Disjoint(txs: map<TxId, Tx>) {
    forall t, t' :: t in txs && t' in txs && t != t' ==> txs[t].locks !! txs[t'].locks
  }

  ghost predicate Inv(s: State) {
    Disjoint(s.txs) && forall t :: t in s.txs ==> TxOk(s.store, s.txs[t])
  }

  function CommittedOps(txs: map<TxId, Tx>): map<TxId, SessionOp> {
    map t | t in txs && txs[t].pc.Committed? :: OpOf(txs[t])
  }

  /** The log lists each committed transaction once, with the change it made. */
  ghost predicate Logged(s: State) {
    Lists(s.log, CommittedOps(s.txs))
  }

  lemma StepOk(s: State, tx: Tx, clock: int)
    requires TxOk(s.store, tx) && !Finished(tx) && !tx.pc.Ready?
    ensures TxOk(s.store, Step(s, tx, clock))
    ensures Step(s, tx, clock).locks <= tx.locks + Needed(s, tx, clock)
  {
  }

  /** A statement waits only for the session it then writes, or whose hash it then collides with. */
  lemma NeededIsTaken(s: State, tx: Tx, clock: int, h: TokenHash)
    requires TxOk(s.store, tx) && !Finished(tx) && !tx.pc.Ready? && h in Needed(s, tx, clock)
    ensures h in Step(s, tx, clock).locks || (Step(s, tx, clock).pc == Aborted(IntegrityViolation) && h in s.store)
  {
  }

  ghost predicate Agree(store: Store, store': Store, h: TokenHash) {
    (h in store <==> h in store') && (h in store ==> store[h] == store'[h])
  }

  lemma StatementKeepsInv(s: State, t: TxId, clock: int)
    requires Inv(s) && Can(s, Statement(t, clock))
    ensures Inv(Do(s, Statement(t, clock)))
  {
    hide TxOk, Step, Needed;
    var s' := Do(s, Statement(t, clock));
    StepOk(s, s.txs[t], clock);
    forall t', h | t' in s.txs && t' != t && h in s'.txs[t].locks ensures h !in s.txs[t'].locks {
      assert h in Needed(s, s.txs[t], clock) ==> !LockedByOther(s, t, h);
    }
  }

  lemma TxStable(store: Store, store': Store, tx: Tx)
    requires TxOk(store, tx) && forall h :: h in tx.locks ==> Agree(store, store', h)
    ensures TxOk(store', tx)
  {
  }

  lemma CommitKeepsInv(s: State, t: TxId)
    requires Inv(s) && Can(s, Commit(t))
    ensures Inv(Do(s, Commit(t)))
    ensures Enabled(s.store, OpOf(s.txs[t])) && Do(s, Commit(t)).store == Apply(s.store, OpOf(s.txs[t]))
  {
    var s' := Do(s, Commit(t));
    assert TxOk(s.store, s.txs[t]);
    hide TxOk, Enabled, Apply, OpOf;
    assert TxOk(s'.store, s'.txs[t]) by { CommittedOk(s'.store, s.txs[t]); }
    forall t' | t' in s.txs && t' != t ensures TxOk(s'.store, s.txs[t']) {
      TxStable(s.store, s'.store, s.txs[t']);
    }
  }

  lemma CommittedOk(store: Store, tx: Tx)
    ensures TxOk(store, tx.(pc := Committed, locks := {}))
    ensures OpOf(tx.(pc := Committed, locks := {})) == OpOf(tx)
  {
  }

  lemma DoKeepsInv(s: State, a: Action)
    requires Inv(s) && Can(s, a)
    ensures Inv(Do(s, a))
  {
    match a
    case Begin(t, req) =>
    case Statement(t, clock) => StatementKeepsInv(s, t, clock);
    case Commit(t) => CommitKeepsInv(s, t);
    case Cancel(t) =>
  }

  lemma StepNeverCommits(s: State, tx: Tx, clock: int)
    requires !Finished(tx)
    ensures !Step(s, tx, clock).pc.Committed?
  {
  }

  lemma DoKeepsLogged(s: State, a: Action)
    requires Logged(s) && Can(s, a)
    ensures Logged(Do(s, a))
  {
    hide Lists, Step, OpOf, LockedByOther, Needed, NewTx;
    var s' := Do(s, a);
    if a.Commit? {
      CommittedOk(s.store, s.txs[a.t]);
      assert CommittedOps(s'.txs) == CommittedOps(s.txs)[a.t := OpOf(s.txs[a.t])];
      ListsOneMore(s.log, CommittedOps(s.txs), a.t, OpOf(s.txs[a.t]));
    } else {
      if a.Statement? { StepNeverCommits(s, s.txs[a.t], a.clock); }
      if a.Begin? { BegunIsOpen(a); }
      assert CommittedOps(s'.txs) == CommittedOps(s.txs);
    }
  }

  lemma BegunIsOpen(a: Action)
    requires a.Begin?
    ensures !NewTx(a.req).pc.Committed?
  {
  }

  lemma DoExtendsReplay(store: Store, s: State, a: Action)
    requires Inv(s) && Can(s, a) && Replay(store, Ops(s.log)) == Some(s.store)
    ensures Replay(store, Ops(Do(s, a).log)) == Some(Do(s, a).store)
  {
    hide Inv, Step, OpOf, Enabled, Apply;
    if a.Commit? {
      CommitKeepsInv(s, a.t);
      var ops := Ops(Do(s, a).log);
      assert ops[..|ops| - 1] == Ops(s.log);
    }
  }

  lemma {:induction false} RunReplays(store: Store, s: State, actions: seq<Action>)
    requires Inv(s) && Logged(s) && CanRun(s, actions) && Replay(store, Ops(s.log)) == Some(s.store)
    ensures var end := Run(s, actions);
            Inv(end) && Logged(end) && Replay(store, Ops(end.log)) == Some(end.store)
    decreases |actions|
  {
    if actions != [] {
      hide Inv, Logged, Can, Do;
      DoKeepsInv(s, actions[0]);
      DoKeepsLogged(s, actions[0]);
      DoExtendsReplay(store, s, actions[0]);
      RunReplays(store, Do(s, actions[0]), actions[1..]);
    }
  }

  ghost predicate Init(s: State) {
    s.txs == map[] && s.log == []
  }

  /** Serializability: every interleaving commits a serial history of whole requests. */
  lemma Serializable(s: State, actions: seq<Action>)
    requires Init(s) && CanRun(s, actions)
    ensures var end := Run(s, actions);
            Replay(s.store, Ops(end.log)) == Some(end.store) && Logged(end)
  {
    RunReplays(s.store, s, actions);
  }

  /** In every interleaving a refresh token is redeemed at most once: after a committed refresh
      with a token, or a committed logout that revoked it, no refresh with that token commits. */
  lemma RedeemedOnce(s: State, actions: seq<Action>, i: nat, j: nat)
    requires Init(s) && CanRun(s, actions)
    requires var end := Run(s, actions);
             i < j < |end.log| && end.txs.Keys >= {end.log[i].tx, end.log[j].tx}
             && !end.log[i].op.SkipOp? && !end.txs[end.log[i].tx].req.Login?
             && end.txs[end.log[j].tx].req.Refresh?
    ensures var end := Run(s, actions);
            end.txs[end.log[i].tx].req.token != end.txs[end.log[j].tx].req.token
  {
    var end := Run(s, actions);
    Serializable(s, actions);
    SpentOnce(s.store, Ops(end.log), i, j);
    assert Ops(end.log)[j].RotateOp?;
  }

  /** In every interleaving from an empty table: a user's live sessions are the logins less the
      logouts that found one, and no two live sessions stem from one login. */
  lemma SessionsInInterleavings(s: State, actions: seq<Action>, u: UserId)
    requires Init(s) && CanRun(s, actions) && s.store == map[]
    ensures var end := Run(s, actions);
            && Replay(map[], Ops(end.log)) == Some(end.store)
            && |LiveOf(end.store, u)| + LogoutsOf(map[], Ops(end.log), u) == LoginsOf(Ops(end.log), u)
            && Chained(end.store, Lineage(Ops(end.log)), AllLogins(Ops(end.log)))
  {
    Serializable(s, actions);
    LiveSessionsCounted(map[], Ops(Run(s, actions).log), u);
    assert LiveOf(map[], u) == {};
    ChainsHold(Ops(Run(s, actions).log));
  }

  lemma {:induction false} RunKeepsRevoked(s: State, actions: seq<Action>, h: TokenHash)
    requires Inv(s) && CanRun(s, actions) && h in s.store && s.store[h].revokedAt.Some?
    ensures h in Run(s, actions).store && Run(s, actions).store[h] == s.store[h]
    decreases |actions|
  {
    hide Inv, Step, OpOf, Enabled, Apply;
    if actions != [] {
      var a := actions[0];
      DoKeepsInv(s, a);
      if a.Commit? {
        CommitKeepsInv(s, a.t);
        RevokedStays(s.store, OpOf(s.txs[a.t]), h);
      }
      RunKeepsRevoked(Do(s, a), actions[1..], h);
    }
  }

  lemma {:induction false} RunKeepsInv(s: State, actions: seq<Action>)
    requires Inv(s) && CanRun(s, actions)
    ensures Inv(Run(s, actions))
    decreases |actions|
  {
    hide Inv, Can, Do;
    if actions != [] {
      DoKeepsInv(s, actions[0]);
      RunKeepsInv(Do(s, actions[0]), actions[1..]);
    }
  }

  /** In every interleaving, from any state it passes through on: a revoked session is never changed. */
  lemma RevokedForGoodInInterleavings(s0: State, before: seq<Action>, actions: seq<Action>, h: TokenHash)
    requires Init(s0) && CanRun(s0, before) && CanRun(Run(s0, before), actions)
    requires h in Run(s0, before).store && Run(s0, before).store[h].revokedAt.Some?
    ensures var s, end := Run(s0, before), Run(Run(s0, before), actions);
            h in end.store && end.store[h] == s.store[h]
  {
    RunKeepsInv(s0, before);
    RunKeepsRevoked(Run(s0, before), actions, h);
  }
}
