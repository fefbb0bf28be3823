/** The refresh_sessions table, its three kinds of committed change, and what every history of
    them keeps: one redemption per token, one live session per login chain.
 */
module SessionStore {
  import opened Common
  import opened Tokens

  datatype Session = Session(user: UserId, expires: int, revokedAt: Option<int>)

  type Store = map<TokenHash, Session>

  /** What a request can raise; Cancelled is any abort from outside. */
  datatype AuthError = InvalidCredentials | IntegrityViolation | Cancelled

  datatype SessionOp =
    | LoginOp(user: UserId, added: TokenHash, expires: int)
    | RotateOp(user: UserId, spent: TokenHash, added: TokenHash, at: int, expires: int)
    | LogoutOp(spent: TokenHash, at: int)
    | SkipOp

  /** The guard of the update that spends a session during rotation. */
  predicate IsActive(store: Store, u: UserId, h: TokenHash, at: int) {
    h in store && store[h].user == u && store[h].revokedAt.None? && store[h].expires > at
  }

  /** The guard of the update behind logout. */
  predicate IsUnrevoked(store: Store, h: TokenHash) {
    h in store && store[h].revokedAt.None?
  }

  function Revoked(session: Session, at: int): Session {
    session.(revokedAt := Some(at))
  }

  predicate Enabled(store: Store, op: SessionOp) {
    match op
    case LoginOp(_, added, _) => added !in store
    case RotateOp(u, spent, added, at, _) => IsActive(store, u, spent, at) && added !in store
    case LogoutOp(spent, _) => IsUnrevoked(store, spent)
    case SkipOp => true
  }

  function Apply(store: Store, op: SessionOp): Store
    requires Enabled(store, op)
  {
    match op
    case LoginOp(u, added, expires) => store[added := Session(u, expires, None)]
    case RotateOp(u, spent, added, at, expires) =>
      store[spent := Revoked(store[spent], at)][added := Session(u, expires, None)]
    case LogoutOp(spent, at) => store[spent := Revoked(store[spent], at)]
    case SkipOp => store
  }

  function Replay(store: Store, log: seq<SessionOp>): Option<Store> {
    if log == [] then Some(store)
    else
      var before := Replay(store, log[..|log| - 1]);
      var op := log[|log| - 1];
      if before.Some? && Enabled(before.value, op) then Some(Apply(before.value, op)) else None
  }

  predicate Spends(op: SessionOp, h: TokenHash) {
    (op.RotateOp? || op.LogoutOp?) && op.spent == h
  }

  predicate Adds(op: SessionOp, h: TokenHash) {
    (op.LoginOp? || op.RotateOp?) && op.added == h
  }

  // ---- A token is redeemed at most once ----

  lemma RevokedStays(store: Store, op: SessionOp, h: TokenHash)
    requires Enabled(store, op) && h in store && store[h].revokedAt.Some?
    ensures h in Apply(store, op) && Apply(store, op)[h] == store[h]
    ensures !Spends(op, h) && !Adds(op, h)
  {
  }

  lemma {:induction false} PrefixRuns(store: Store, log: seq<SessionOp>, n: nat)
    requires Replay(store, log).Some? && n <= |log|
    ensures Replay(store, log[..n]).Some?
    ensures n < |log| ==> Enabled(Replay(store, log[..n]).value, log[n])
                          && Replay(store, log[..n + 1]) == Some(Apply(Replay(store, log[..n]).value, log[n]))
    decreases |log|
  {
    hide Enabled, Apply;
    if n < |log| {
      var init := log[..|log| - 1];
      PrefixRuns(store, init, n);
      assert init[..n] == log[..n];
      if n < |log| - 1 {
        assert init[..n + 1] == log[..n + 1];
      } else {
        assert log[..n + 1] == log;
      }
    } else {
      assert log[..n] == log;
    }
  }

  /** A session that is revoked at any point of a history, by an entry of it or before it, is the
      same row ever after: the revocation time is written once. */
  lemma {:induction false} SpentForGood(store: Store, log: seq<SessionOp>, n: nat, end: nat, h: TokenHash)
    requires Replay(store, log).Some? && n <= end <= |log|
    requires Replay(store, log[..n]).Some? && h in Replay(store, log[..n]).value
    requires Replay(store, log[..n]).value[h].revokedAt.Some?
    ensures Replay(store, log[..end]).Some? && h in Replay(store, log[..end]).value
    ensures Replay(store, log[..end]).value[h] == Replay(store, log[..n]).value[h]
    decreases end
  {
    hide Enabled, Apply;
    if n < end {
      SpentForGood(store, log, n, end - 1, h);
      PrefixRuns(store, log, end - 1);
      RevokedStays(Replay(store, log[..end - 1]).value, log[end - 1], h);
    }
  }

  /** Nothing spends or adds a session twice: after a committed rotation or logout of a token no
      later rotation of it commits. */
  lemma SpentOnce(store: Store, log: seq<SessionOp>, i: nat, j: nat)
    requires Replay(store, log).Some? && i < j < |log| && (log[i].RotateOp? || log[i].LogoutOp?)
    ensures !Spends(log[j], log[i].spent) && !Adds(log[j], log[i].spent)
  {
    PrefixRuns(store, log, i);
    PrefixRuns(store, log, j);
    SpentForGood(store, log, i + 1, j, log[i].spent);
    RevokedStays(Replay(store, log[..j]).value, log[j], log[i].spent);
  }

  // ---- Live sessions against logins ----

  function LiveOf(store: Store, u: UserId): set<TokenHash> {
    set h | h in store && store[h].user == u && store[h].revokedAt.None?
  }

  function LoginsOf(log: seq<SessionOp>, u: UserId): nat {
    if log == [] then 0
    else LoginsOf(log[..|log| - 1], u)
         + if log[|log| - 1].LoginOp? && log[|log| - 1].user == u then 1 else 0
  }

  /** Logouts that found a live session of this user. */
  function LogoutsOf(store: Store, log: seq<SessionOp>, u: UserId): nat
    requires Replay(store, log).Some?
  {
    if log == [] then 0
    else
      var op := log[|log| - 1];
      LogoutsOf(store, log[..|log| - 1], u)
      + if op.LogoutOp? && Replay(store, log[..|log| - 1]).value[op.spent].user == u then 1 else 0
  }

  lemma LiveAfterAdd(store: Store, h: TokenHash, session: Session, u: UserId)
    requires h !in store && session.revokedAt.None?
    ensures |LiveOf(store[h := session], u)| == |LiveOf(store, u)| + if session.user == u then 1 else 0
  {
    assert LiveOf(store[h := session], u) == LiveOf(store, u) + if session.user == u then {h} else {};
  }

  lemma LiveAfterSpend(store: Store, h: TokenHash, at: int, u: UserId)
    requires IsUnrevoked(store, h)
    ensures |LiveOf(store[h := Revoked(store[h], at)], u)| == |LiveOf(store, u)| - if store[h].user == u then 1 else 0
  {
    assert h in LiveOf(store, u) <==> store[h].user == u;
    assert LiveOf(store[h := Revoked(store[h], at)], u) == LiveOf(store, u) - {h};
  }

  lemma LiveAfter(store: Store, op: SessionOp, u: UserId)
    requires Enabled(store, op)
    ensures |LiveOf(Apply(store, op), u)| == |LiveOf(store, u)| +
            match op {
              case LoginOp(v, _, _) => if u == v then 1 else 0
              case LogoutOp(h, _) => if store[h].user == u then -1 else 0
              case _ => 0
            }
  {
    hide LiveOf;
    match op
    case LoginOp(v, added, expires) => LiveAfterAdd(store, added, Session(v, expires, None), u);
    case RotateOp(v, spent, added, at, expires) =>
      LiveAfterSpend(store, spent, at, u);
      LiveAfterAdd(store[spent := Revoked(store[spent], at)], added, Session(v, expires, None), u);
    case LogoutOp(h, at) => LiveAfterSpend(store, h, at, u);
    case SkipOp =>
  }

  /** A rotation keeps the number of a user's live sessions, so they are the logins less the
      logouts that found one; in particular never more than the logins. */
  lemma {:induction false} LiveSessionsCounted(store: Store, log: seq<SessionOp>, u: UserId)
    requires Replay(store, log).Some?
    ensures |LiveOf(Replay(store, log).value, u)| + LogoutsOf(store, log, u)
            == |LiveOf(store, u)| + LoginsOf(log, u)
  {
    if log != [] {
      LiveSessionsCounted(store, log[..|log| - 1], u);
      LiveAfter(Replay(store, log[..|log| - 1]).value, log[|log| - 1], u);
    }
  }

  // ---- Rotation chains ----

  /** The login a session descends from, counted from 0, and the rotations in between. */
  datatype Link = Link(login: nat, depth: nat)

  function AllLogins(log: seq<SessionOp>): nat {
    if log == [] then 0
    else AllLogins(log[..|log| - 1]) + if log[|log| - 1].LoginOp? then 1 else 0
  }

  function LinksAfter(links: map<TokenHash, Link>, logins: nat, op: SessionOp): map<TokenHash, Link> {
    match op
    case LoginOp(_, added, _) => links[added := Link(logins, 0)]
    case RotateOp(_, spent, added, _, _) =>
      if spent in links then links[added := Link(links[spent].login, links[spent].depth + 1)] else links
    case _ => links
  }

  function Lineage(log: seq<SessionOp>): map<TokenHash, Link> {
    if log == [] then map[]
    else LinksAfter(Lineage(log[..|log| - 1]), AllLogins(log[..|log| - 1]), log[|log| - 1])
  }

  /** In every chain the sessions stand at distinct depths, one user owns them all, and only the
      deepest can be live. */
  ghost predicate Chained(store: Store, links: map<TokenHash, Link>, logins: nat) {
    && links.Keys == store.Keys
    && (forall h :: h in links ==> links[h].login < logins)
    && (forall h, k :: h in store && k in store && links[h].login == links[k].login ==>
          store[h].user == store[k].user && (links[h].depth == links[k].depth ==> h == k)
          && (store[h].revokedAt.None? ==> links[k].depth <= links[h].depth))
  }

  lemma LoginStartsChain(store: Store, links: map<TokenHash, Link>, logins: nat, op: SessionOp)
    requires Chained(store, links, logins) && op.LoginOp? && Enabled(store, op)
    ensures Chained(Apply(store, op), LinksAfter(links, logins, op), logins + 1)
  {
  }

  lemma RotationExtendsChain(store: Store, links: map<TokenHash, Link>, logins: nat, op: SessionOp)
    requires Chained(store, links, logins) && op.RotateOp? && Enabled(store, op)
    ensures Chained(Apply(store, op), LinksAfter(links, logins, op), logins)
  {
    var spent, added := op.spent, op.added;
    assert store[spent].revokedAt.None? && spent in links;
    var after := Apply(store, op);
    var links' := links[added := Link(links[spent].login, links[spent].depth + 1)];
    assert after == store[spent := Revoked(store[spent], op.at)][added := Session(op.user, op.expires, None)];
    assert links' == LinksAfter(links, logins, op);
    hide LinksAfter, Apply, Enabled;
    forall h, k | h in after && k in after && links'[h].login == links'[k].login
      ensures after[h].user == after[k].user && (links'[h].depth == links'[k].depth ==> h == k)
              && (after[h].revokedAt.None? ==> links'[k].depth <= links'[h].depth)
    {
      assert h != added ==> h in store && (h == spent || after[h] == store[h]);
      assert k != added ==> k in store && (k == spent || after[k] == store[k]);
    }
  }

  lemma LogoutKeepsChains(store: Store, links: map<TokenHash, Link>, logins: nat, op: SessionOp)
    requires Chained(store, links, logins) && (op.LogoutOp? || op.SkipOp?) && Enabled(store, op)
    ensures Chained(Apply(store, op), LinksAfter(links, logins, op), logins)
  {
  }

  lemma {:induction false} ChainsHold(log: seq<SessionOp>)
    requires Replay(map[], log).Some?
    ensures Chained(Replay(map[], log).value, Lineage(log), AllLogins(log))
  {
    if log != [] {
      hide Chained, LinksAfter, Enabled, Apply;
      var earlier, op := log[..|log| - 1], log[|log| - 1];
      var before := Replay(map[], earlier).value;
      ChainsHold(earlier);
      match op
      case LoginOp(_, _, _) => LoginStartsChain(before, Lineage(earlier), AllLogins(earlier), op);
      case RotateOp(_, _, _, _, _) => RotationExtendsChain(before, Lineage(earlier), AllLogins(earlier), op);
      case _ => LogoutKeepsChains(before, Lineage(earlier), AllLogins(earlier), op);
    }
  }

  /** Each login chain has at most one live session: the last of the chain. */
  lemma OneLivePerLogin(log: seq<SessionOp>, h: TokenHash, k: TokenHash)
    requires Replay(map[], log).Some? && h in Lineage(log) && k in Lineage(log) && h != k
    requires Lineage(log)[h].login == Lineage(log)[k].login
    ensures var end := Replay(map[], log).value;
            && h in end && k in end
            && (end[h].revokedAt.None? ==> end[k].revokedAt.Some? && Lineage(log)[k].depth < Lineage(log)[h].depth)
  {
    ChainsHold(log);
  }
}
