/** One browser page against the server: API calls that share a single refresh, logins, logouts.

    The page is single-threaded; a step is what runs between two awaits, and any steps of the page,
    the network and the server interleave. The server's own steps are the whole requests of
    AuthService. A failed login attempt is a call answered 401; a successful one is a login exchange.
 */
module ClientRefresh {
  import opened Common
  import opened Tokens
  import opened SessionStore
  import A = AuthService

  type CallId = nat
  type RefreshId = nat
  type LoginId = nat

  datatype CallPc = First | Waiting(promise: RefreshId) | Resumed(ok: bool) | Second | Settled

  /** `sent` counts how often the call has sent its own request. */
  datatype Call = Call(pc: CallPc, sent: nat)

  /** A running doRefresh: nothing to send, request under way, or answer under way. */
  datatype Refreshing = NoToken | Asked(token: Token) | Answered(spent: Token, reply: Option<Token>)

  datatype LoggingIn = Submitted | LoggedIn(reply: Option<Token>)

  /** `promise` is the page's refreshPromise, `stored` its refresh token in local storage. */
  datatype World = World(store: Store, promise: Option<RefreshId>, stored: Option<Token>,
                         calls: map<CallId, Call>, refreshes: map<RefreshId, Refreshing>,
                         logins: map<LoginId, LoggingIn>, logouts: multiset<Token>)

  datatype Action =
    | StartCall(c: CallId)
    | FirstAnswer(c: CallId, unauthorized: bool, r: RefreshId)
    | Resume(c: CallId)
    | SecondAnswer(c: CallId, unauthorized: bool)
    | ServerRefresh(r: RefreshId, m: A.Moment)
    | FinishRefresh(r: RefreshId)
    | LoseRequest(r: RefreshId)
    | LoseAnswer(r: RefreshId)
    | SubmitLogin(l: LoginId)
    | ServerLogin(l: LoginId, m: A.Moment, u: UserId)
    | FinishLogin(l: LoginId)
    | PressLogout
    | ServerLogout(t: Token, m: A.Moment)
    | Elsewhere(op: SessionOp)

  /** The tokens this page has stored or is about to receive. */
  predicate Owns(w: World, t: Token) {
    || w.stored == Some(t)
    || (exists r :: r in w.refreshes && w.refreshes[r].Answered? && w.refreshes[r].reply == Some(t))
    || (exists l :: l in w.logins && w.logins[l] == LoggedIn(Some(t)))
  }

  predicate IsAsked(w: World, t: Token) {
    exists r :: r in w.refreshes && w.refreshes[r] == Asked(t)
  }

  predicate Holds(w: World, t: Token) {
    Owns(w, t) || IsAsked(w, t)
  }

  predicate Can(w: World, a: Action) {
    match a
    case StartCall(c) => c !in w.calls
    case FirstAnswer(c, _, r) => c in w.calls && w.calls[c].pc.First? && r !in w.refreshes
    case Resume(c) => c in w.calls && w.calls[c].pc.Resumed?
    case SecondAnswer(c, _) => c in w.calls && w.calls[c].pc.Second?
    case ServerRefresh(r, _) => r in w.refreshes && w.refreshes[r].Asked?
    case FinishRefresh(r) => r in w.refreshes && !w.refreshes[r].Asked?
    case LoseRequest(r) => r in w.refreshes && w.refreshes[r].Asked?
    case LoseAnswer(r) => r in w.refreshes && w.refreshes[r].Answered?
    case SubmitLogin(l) => l !in w.logins
    case ServerLogin(l, _, _) => l in w.logins && w.logins[l].Submitted?
    case FinishLogin(l) => l in w.logins && w.logins[l].LoggedIn?
    case PressLogout => true
    case ServerLogout(t, _) => t in w.logouts
    case Elsewhere(op) =>
      Enabled(w.store, op) && (op.RotateOp? || op.LogoutOp? ==> !Holds(w, op.spent.token))
  }

  /** doRefresh ends: its promise settles, the page forgets it, its waiters wake up. */
  function Settle(w: World, r: RefreshId, woken: CallPc): World {
    w.(promise := None, refreshes := w.refreshes - {r},
       calls := map c | c in w.calls :: if w.calls[c].pc == Waiting(r) then w.calls[c].(pc := woken) else w.calls[c])
  }

  function Do(w: World, a: Action): World
    requires Can(w, a)
  {
    match a
    case StartCall(c) => w.(calls := w.calls[c := Call(First, 1)])
    case FirstAnswer(c, unauthorized, r) =>
      if !unauthorized then w.(calls := w.calls[c := w.calls[c].(pc := Settled)])
      else if w.promise.Some? then w.(calls := w.calls[c := w.calls[c].(pc := Waiting(w.promise.value))])
      else w.(calls := w.calls[c := w.calls[c].(pc := Waiting(r))],
              promise := Some(r),
              refreshes := w.refreshes[r := if w.stored.None? then NoToken else Asked(w.stored.value)])
    case Resume(c) =>
      if w.calls[c].pc.ok
      then w.(calls := w.calls[c := Call(Second, w.calls[c].sent + 1)])
      else w.(calls := w.calls[c := w.calls[c].(pc := Settled)], stored := None)
    case SecondAnswer(c, unauthorized) =>
      w.(calls := w.calls[c := w.calls[c].(pc := Settled)], stored := if unauthorized then None else w.stored)
    case ServerRefresh(r, m) =>
      var token := w.refreshes[r].token;
      var (store', reply) := A.ServeRefresh(w.store, m, token);
      w.(store := store',
         refreshes := w.refreshes[r := Answered(token, if reply.Success? then Some(reply.value) else None)])
    case FinishRefresh(r) =>
      (match w.refreshes[r]
       case Answered(_, Some(t)) => Settle(w, r, Resumed(true)).(stored := Some(t))
       case Answered(_, None) => Settle(w, r, Resumed(false)).(stored := None)
       case _ => Settle(w, r, Resumed(false)))
    // A fetch that throws rejects the promise: the waiting calls throw too.
    case LoseRequest(r) => Settle(w, r, Settled)
    case LoseAnswer(r) => Settle(w, r, Settled)
    case SubmitLogin(l) => w.(logins := w.logins[l := Submitted])
    case ServerLogin(l, m, u) =>
      var (store', reply) := A.ServeLogin(w.store, m, u);
      w.(store := store', logins := w.logins[l := LoggedIn(if reply.Success? then Some(reply.value) else None)])
    case FinishLogin(l) =>
      w.(logins := w.logins - {l}, stored := if w.logins[l].reply.Some? then w.logins[l].reply else w.stored)
    case PressLogout =>
      w.(stored := None, logouts := if w.stored.Some? then w.logouts + multiset{w.stored.value} else w.logouts)
    case ServerLogout(t, m) => w.(store := A.ServeLogout(w.store, m, t), logouts := w.logouts - multiset{t})
    case Elsewhere(op) => w.(store := Apply(w.store, op))
  }

  // ---- The invariant ----

  predicate IsLive(w: World, t: Token) {
    IsUnrevoked(w.store, Sha256(t))
  }

  predicate IsKnown(w: World, t: Token) {
    Sha256(t) in w.store
  }

  /** Exactly the refresh that refreshPromise stands for is under way, or none. */
  ghost predicate SingleFlight(w: World) {
    && (forall r :: r in w.refreshes ==> w.promise == Some(r))
    && (w.promise.Some? ==> w.promise.value in w.refreshes)
  }

  predicate CallOk(w: World, call: Call) {
    match call.pc
    case First => call.sent == 1
    case Waiting(r) => call.sent == 1 && w.promise == Some(r)
    case Resumed(_) => call.sent == 1
    case Second => call.sent == 2
    case Settled => 1 <= call.sent <= 2
  }

  ghost predicate CallsOk(w: World) {
    forall c :: c in w.calls ==> CallOk(w, w.calls[c])
  }

  /** This very token was spent by a rotation whose answer is still under way. */
  ghost predicate BeingReplaced(w: World, t: Token) {
    exists r :: r in w.refreshes && w.refreshes[r].Answered? && w.refreshes[r].spent == t && w.refreshes[r].reply.Some?
  }

  ghost predicate StoredOk(w: World) {
    w.stored.Some? ==>
      && IsKnown(w, w.stored.value) && w.stored.value !in w.logouts
      && (IsLive(w, w.stored.value) || BeingReplaced(w, w.stored.value))
  }

  ghost predicate RefreshOk(w: World, f: Refreshing) {
    match f
    case NoToken => true
    case Asked(t) => IsKnown(w, t)
    case Answered(spent, reply) =>
      reply.Some? ==>
        && IsKnown(w, spent) && !IsLive(w, spent)
        && IsLive(w, reply.value) && reply.value !in w.logouts && w.stored != Some(reply.value)
  }

  ghost predicate LoginOk(w: World, l: LoginId)
    requires l in w.logins
  {
    w.logins[l].LoggedIn? && w.logins[l].reply.Some? ==>
      var t := w.logins[l].reply.value;
      && IsLive(w, t) && t !in w.logouts && w.stored != Some(t)
      && (forall r :: r in w.refreshes ==>
            w.refreshes[r] != Asked(t) && !(w.refreshes[r].Answered? && w.refreshes[r].reply == Some(t)))
      && (forall k :: k in w.logins && k != l ==> w.logins[k] != w.logins[l])
  }

  ghost predicate TokensOk(w: World) {
    && StoredOk(w)
    && (forall r :: r in w.refreshes ==> RefreshOk(w, w.refreshes[r]))
    && (forall l :: l in w.logins ==> LoginOk(w, l))
    && (forall t :: t in w.logouts ==> IsKnown(w, t))
  }

  ghost predicate Inv(w: World) {
    SingleFlight(w) && CallsOk(w) && TokensOk(w)
  }

  lemma SettlingKeepsSingleFlight(w: World, r: RefreshId, woken: CallPc)
    requires SingleFlight(w) && CallsOk(w) && r in w.refreshes && (woken.Resumed? || woken.Settled?)
    ensures SingleFlight(Settle(w, r, woken)) && CallsOk(Settle(w, r, woken))
  {
  }

  /** Nothing but the calls and their refresh moved. */
  lemma SameFlight(w: World, w': World)
    requires SingleFlight(w) && CallsOk(w)
    requires w'.promise == w.promise && w'.calls == w.calls && w'.refreshes.Keys == w.refreshes.Keys
    ensures SingleFlight(w') && CallsOk(w')
  {
  }

  lemma OneCallMoves(w: World, w': World, c: CallId)
    requires SingleFlight(w) && CallsOk(w)
    requires w'.promise == w.promise && w'.refreshes == w.refreshes
    requires c in w'.calls && CallOk(w', w'.calls[c]) && w'.calls == w.calls[c := w'.calls[c]]
    ensures SingleFlight(w') && CallsOk(w')
  {
  }

  lemma FirstAnswerKeepsSingleFlight(w: World, c: CallId, unauthorized: bool, r: RefreshId)
    requires SingleFlight(w) && CallsOk(w) && Can(w, FirstAnswer(c, unauthorized, r))
    ensures var w' := Do(w, FirstAnswer(c, unauthorized, r)); SingleFlight(w') && CallsOk(w')
  {
  }

  lemma EndedRefreshKeepsSingleFlight(w: World, a: Action)
    requires SingleFlight(w) && CallsOk(w) && Can(w, a) && (a.FinishRefresh? || a.LoseRequest? || a.LoseAnswer?)
    ensures SingleFlight(Do(w, a)) && CallsOk(Do(w, a))
  {
    var w' := Do(w, a);
    hide SingleFlight, CallsOk, Settle;
    var woken := if !a.FinishRefresh? then Settled
                 else Resumed(w.refreshes[a.r].Answered? && w.refreshes[a.r].reply.Some?);
    SettlingKeepsSingleFlight(w, a.r, woken);
    StoredIsNotFlight(Settle(w, a.r, woken), w'.stored);
  }

  lemma CallsKeepSingleFlight(w: World, a: Action)
    requires SingleFlight(w) && CallsOk(w) && Can(w, a)
    ensures SingleFlight(Do(w, a)) && CallsOk(Do(w, a))
  {
    var w' := Do(w, a);
    assert a.Resume? || a.SecondAnswer? ==> CallOk(w, w.calls[a.c]);
    hide SingleFlight, CallsOk, A.ServeRefresh, A.ServeLogin, A.ServeLogout, Enabled, Apply, Holds, Settle;
    match a
    case StartCall(c) => OneCallMoves(w, w', c);
    case FirstAnswer(c, unauthorized, r) => FirstAnswerKeepsSingleFlight(w, c, unauthorized, r);
    case Resume(c) => OneCallMoves(w, w', c);
    case SecondAnswer(c, _) => OneCallMoves(w, w', c);
    case FinishRefresh(r) => EndedRefreshKeepsSingleFlight(w, a);
    case LoseRequest(r) => EndedRefreshKeepsSingleFlight(w, a);
    case LoseAnswer(r) => EndedRefreshKeepsSingleFlight(w, a);
    case _ => SameFlight(w, w');
  }

  lemma StoredIsNotFlight(w: World, stored: Option<Token>)
    requires SingleFlight(w) && CallsOk(w)
    ensures SingleFlight(w.(stored := stored)) && CallsOk(w.(stored := stored))
  {
  }

  /** What a request of the server does to the liveness of tokens. */
  lemma ServerRefreshEffect(store: Store, m: A.Moment, token: Token)
    ensures var (store', reply) := A.ServeRefresh(store, m, token);
            && (reply.Failure? ==> store' == store)
            && (reply.Success? ==>
                  && Sha256(reply.value) !in store && IsUnrevoked(store', Sha256(reply.value))
                  && Sha256(token) in store' && !IsUnrevoked(store', Sha256(token)))
            && (forall h :: h in store ==> h in store')
            && (forall h :: h in store && h != Sha256(token) ==> (IsUnrevoked(store, h) <==> IsUnrevoked(store', h)))
  {
  }

  lemma ServerLoginEffect(store: Store, m: A.Moment, u: UserId)
    ensures var (store', reply) := A.ServeLogin(store, m, u);
            && (reply.Success? ==> Sha256(reply.value) !in store && IsUnrevoked(store', Sha256(reply.value)))
            && (forall h :: h in store ==> h in store' && (IsUnrevoked(store, h) <==> IsUnrevoked(store', h)))
  {
  }

  lemma ServerLogoutEffect(store: Store, m: A.Moment, token: Token)
    ensures var store' := A.ServeLogout(store, m, token);
            && (forall h :: h in store ==> h in store' && (IsUnrevoked(store', h) ==> IsUnrevoked(store, h)))
            && (forall h :: h in store && h != Sha256(token) ==> (IsUnrevoked(store, h) <==> IsUnrevoked(store', h)))
  {
  }

  lemma ElsewhereEffect(store: Store, op: SessionOp)
    requires Enabled(store, op)
    ensures var store' := Apply(store, op);
            && (forall h :: h in store ==> h in store' && (IsUnrevoked(store', h) ==> IsUnrevoked(store, h)))
            && (forall h :: h in store && !Spends(op, h) ==> (IsUnrevoked(store, h) <==> IsUnrevoked(store', h)))
  {
  }

  /** Nothing but the calls moved, or the stored token was dropped. */
  lemma SameTokens(w: World, w': World)
    requires TokensOk(w)
    requires w'.store == w.store && w'.refreshes == w.refreshes && w'.logins == w.logins && w'.logouts == w.logouts
    requires w'.stored == w.stored || w'.stored == None
    ensures TokensOk(w')
  {
  }

  lemma AskKeepsTokens(w: World, r: RefreshId, f: Refreshing)
    requires TokensOk(w) && w.refreshes == map[]
    requires f == if w.stored.None? then NoToken else Asked(w.stored.value)
    ensures TokensOk(w.(refreshes := w.refreshes[r := f]))
  {
  }

  lemma CallsKeepTokens(w: World, a: Action)
    requires Inv(w) && Can(w, a) && (a.StartCall? || a.FirstAnswer? || a.Resume? || a.SecondAnswer?)
    ensures TokensOk(Do(w, a))
  {
    var w' := Do(w, a);
    if a.FirstAnswer? && a.unauthorized && w.promise.None? {
      assert w.refreshes == map[];
      AskKeepsTokens(w, a.r, w'.refreshes[a.r]);
      SameTokens(w.(refreshes := w'.refreshes), w');
    } else {
      hide TokensOk;
      SameTokens(w, w');
    }
  }

  /** The only refresh ends, delivering its token or nothing. */
  lemma FinishKeepsTokens(w: World, w': World, r: RefreshId)
    requires TokensOk(w) && r in w.refreshes && w.refreshes.Keys == {r}
    requires w'.store == w.store && w'.refreshes == map[] && w'.logins == w.logins && w'.logouts == w.logouts
    requires match w.refreshes[r] {
               case Answered(_, reply) => w'.stored == reply
               case _ => w'.stored == w.stored
             }
    ensures TokensOk(w')
  {
  }

  lemma SettleForgets(w: World, r: RefreshId, woken: CallPc)
    requires w.refreshes.Keys == {r}
    ensures var w' := Settle(w, r, woken);
            w'.store == w.store && w'.refreshes == map[] && w'.logins == w.logins && w'.logouts == w.logouts
            && w'.stored == w.stored
  {
  }

  /** The action loses the answer that carries the replacement of the stored token. */
  predicate Strands(w: World, a: Action)
    requires Can(w, a)
  {
    a.LoseAnswer? && w.stored == Some(w.refreshes[a.r].spent) && w.refreshes[a.r].reply.Some?
  }

  /** The only refresh ends without an effect; the stored token was not waiting for its answer. */
  lemma DropKeepsTokens(w: World, w': World, r: RefreshId)
    requires TokensOk(w) && w.refreshes.Keys == {r} && (w.stored.Some? ==> !BeingReplaced(w, w.stored.value))
    requires w' == w.(promise := w'.promise, calls := w'.calls, refreshes := map[])
    ensures TokensOk(w')
  {
    hide IsUnrevoked;
    forall l | l in w'.logins ensures LoginOk(w', l) { assert LoginOk(w, l); }
  }

  lemma HarmlessLossKeepsTokens(w: World, r: RefreshId)
    requires Inv(w) && Can(w, LoseAnswer(r)) && !Strands(w, LoseAnswer(r))
    ensures TokensOk(Do(w, LoseAnswer(r)))
  {
    assert w.refreshes.Keys == {r};
    SettleForgets(w, r, Settled);
    hide TokensOk, CallsOk, SingleFlight, IsUnrevoked, Settle;
    DropKeepsTokens(w, Do(w, LoseAnswer(r)), r);
  }

  lemma SettlingKeepsTokens(w: World, a: Action)
    requires Inv(w) && Can(w, a) && (a.FinishRefresh? || a.LoseRequest?)
    ensures TokensOk(Do(w, a))
  {
    assert w.refreshes.Keys == {a.r};
    var woken := if !a.FinishRefresh? then Settled
                 else Resumed(w.refreshes[a.r].Answered? && w.refreshes[a.r].reply.Some?);
    SettleForgets(w, a.r, woken);
    hide TokensOk, CallsOk, SingleFlight, IsUnrevoked, Settle;
    FinishKeepsTokens(w, Do(w, a), a.r);
  }

  lemma FinishLoginKeepsTokens(w: World, l: LoginId)
    requires TokensOk(w) && Can(w, FinishLogin(l))
    ensures TokensOk(Do(w, FinishLogin(l)))
  {
    var w' := Do(w, FinishLogin(l));
    if w'.stored.Some? { LiveIsKnown(w, w'.stored.value); }
    hide IsUnrevoked;
    assert LoginOk(w, l);
    forall k | k in w'.logins ensures LoginOk(w', k) { assert LoginOk(w, k); }
    forall r | r in w'.refreshes ensures RefreshOk(w', w'.refreshes[r]) { assert RefreshOk(w, w.refreshes[r]); }
    if w.logins[l].reply.None? && w.stored.Some? && BeingReplaced(w, w.stored.value) {
      assert BeingReplaced(w', w.stored.value);
    }
  }

  lemma SubmitLoginKeepsTokens(w: World, l: LoginId)
    requires TokensOk(w) && Can(w, SubmitLogin(l))
    ensures TokensOk(Do(w, SubmitLogin(l)))
  {
  }

  lemma LogoutKeepsTokens(w: World)
    requires TokensOk(w)
    ensures TokensOk(Do(w, PressLogout))
  {
  }

  /** The server touched neither the liveness nor the existence of the tokens held here. */
  lemma StoreMoves(w: World, w': World)
    requires TokensOk(w)
    requires w' == w.(store := w'.store, logouts := w'.logouts)
    requires forall t :: t in w'.logouts ==> t in w.logouts
    requires forall h :: h in w.store ==> h in w'.store && (IsUnrevoked(w'.store, h) ==> IsUnrevoked(w.store, h))
    requires forall t :: Owns(w, t) && IsLive(w, t) ==> IsLive(w', t)
    ensures TokensOk(w')
  {
  }

  lemma OwnedIsNotLoggedOut(w: World, t: Token)
    requires TokensOk(w) && Owns(w, t)
    ensures t !in w.logouts && IsKnown(w, t)
  {
  }

  lemma LiveIsKnown(w: World, t: Token)
    ensures IsLive(w, t) ==> IsKnown(w, t)
  {
  }

  lemma ServerLogoutKeepsTokens(w: World, t: Token, m: A.Moment)
    requires TokensOk(w) && Can(w, ServerLogout(t, m))
    ensures TokensOk(Do(w, ServerLogout(t, m)))
  {
    ServerLogoutEffect(w.store, m, t);
    var w' := Do(w, ServerLogout(t, m));
    hide IsUnrevoked, A.ServeLogout, TokensOk, Owns;
    forall u | Owns(w, u) && IsLive(w, u) ensures IsLive(w', u) {
      OwnedIsNotLoggedOut(w, u);
    }
    StoreMoves(w, w');
  }

  lemma ElsewhereKeepsTokens(w: World, op: SessionOp)
    requires TokensOk(w) && Can(w, Elsewhere(op))
    ensures TokensOk(Do(w, Elsewhere(op)))
  {
    ElsewhereEffect(w.store, op);
    var w' := Do(w, Elsewhere(op));
    hide IsUnrevoked, Enabled, Apply, TokensOk, Owns, IsAsked;
    forall u | Owns(w, u) && IsLive(w, u) ensures IsLive(w', u) {
      OwnedIsNotLoggedOut(w, u);
      assert Holds(w, u);
      assert !Spends(op, Sha256(u));
    }
    StoreMoves(w, w');
  }

  /** A login is answered with a token nobody has seen before. */
  lemma NewLoginKeepsTokens(w: World, l: LoginId, reply: Option<Token>)
    requires TokensOk(w)
    requires reply.Some? ==>
               IsLive(w, reply.value) && reply.value !in w.logouts && !Owns(w, reply.value) && !IsAsked(w, reply.value)
    ensures TokensOk(w.(logins := w.logins[l := LoggedIn(reply)]))
  {
  }

  lemma UnknownIsFree(w: World, t: Token)
    requires TokensOk(w)
    ensures Owns(w, t) || IsAsked(w, t) || t in w.logouts ==> IsKnown(w, t)
  {
  }

  lemma ServerLoginKeepsTokens(w: World, l: LoginId, m: A.Moment, u: UserId)
    requires TokensOk(w) && Can(w, ServerLogin(l, m, u))
    ensures TokensOk(Do(w, ServerLogin(l, m, u)))
  {
    ServerLoginEffect(w.store, m, u);
    var reply := A.ServeLogin(w.store, m, u).1;
    var moved := w.(store := A.ServeLogin(w.store, m, u).0);
    hide IsUnrevoked, A.ServeLogin, TokensOk, Owns, IsAsked;
    forall t | Owns(w, t) && IsLive(w, t) ensures IsLive(moved, t) { OwnedIsNotLoggedOut(w, t); }
    StoreMoves(w, moved);
    if reply.Success? {
      UnknownIsFree(w, reply.value);
      SameHoldings(w, moved, reply.value);
      NewLoginKeepsTokens(moved, l, Some(reply.value));
    } else {
      NewLoginKeepsTokens(moved, l, None);
    }
  }

  lemma SameHoldings(w: World, w': World, t: Token)
    requires w'.stored == w.stored && w'.refreshes == w.refreshes && w'.logins == w.logins
    ensures Owns(w', t) <==> Owns(w, t)
    ensures IsAsked(w', t) <==> IsAsked(w, t)
  {
  }

  /** The server answers the only refresh: a new token for the spent one, or nothing. */
  lemma AnswerKeepsTokens(w: World, w': World, r: RefreshId, spent: Token, reply: Option<Token>)
    requires TokensOk(w) && w.refreshes == map[r := Asked(spent)]
    requires w' == w.(store := w'.store, refreshes := map[r := Answered(spent, reply)])
    requires forall h :: h in w.store ==> h in w'.store
    requires forall t :: t != spent && IsLive(w, t) ==> IsLive(w', t)
    requires reply.None? && IsLive(w, spent) ==> IsLive(w', spent)
    requires reply.Some? ==>
               && IsKnown(w', spent) && !IsLive(w', spent) && IsLive(w', reply.value)
               && !Owns(w, reply.value) && reply.value !in w.logouts
    ensures TokensOk(w')
  {
    hide IsUnrevoked;
    assert r in w'.refreshes;
    assert reply.Some? ==> BeingReplaced(w', spent);
    forall l | l in w'.logins ensures LoginOk(w', l) {
      assert LoginOk(w, l);
      assert r in w.refreshes;
    }
  }

  lemma ServerRefreshKeepsTokens(w: World, r: RefreshId, m: A.Moment)
    requires TokensOk(w) && Can(w, ServerRefresh(r, m)) && w.refreshes.Keys == {r}
    ensures TokensOk(Do(w, ServerRefresh(r, m)))
  {
    var token := w.refreshes[r].token;
    var reply := A.ServeRefresh(w.store, m, token).1;
    var w' := Do(w, ServerRefresh(r, m));
    ServerRefreshEffect(w.store, m, token);
    if reply.Success? { UnknownIsFree(w, reply.value); }
    forall t | t != token && IsLive(w, t) ensures IsLive(w', t) { LiveIsKnown(w, t); }
    hide IsUnrevoked, A.ServeRefresh, TokensOk, Owns, IsAsked;
    assert w.refreshes == map[r := Asked(token)];
    AnswerKeepsTokens(w, w', r, token, if reply.Success? then Some(reply.value) else None);
  }

  lemma DoKeepsInv(w: World, a: Action)
    requires Inv(w) && Can(w, a) && !Strands(w, a)
    ensures Inv(Do(w, a))
  {
    CallsKeepSingleFlight(w, a);
    if a.ServerRefresh? { assert w.refreshes.Keys == {a.r}; }
    hide SingleFlight, CallsOk, TokensOk, Do, Can;
    match a
    case ServerRefresh(r, m) => ServerRefreshKeepsTokens(w, r, m);
    case ServerLogin(l, m, u) => ServerLoginKeepsTokens(w, l, m, u);
    case ServerLogout(t, m) => ServerLogoutKeepsTokens(w, t, m);
    case Elsewhere(op) => ElsewhereKeepsTokens(w, op);
    case StartCall(_) => CallsKeepTokens(w, a);
    case FirstAnswer(_, _, _) => CallsKeepTokens(w, a);
    case Resume(_) => CallsKeepTokens(w, a);
    case SecondAnswer(_, _) => CallsKeepTokens(w, a);
    case FinishRefresh(_) => SettlingKeepsTokens(w, a);
    case LoseRequest(_) => SettlingKeepsTokens(w, a);
    case LoseAnswer(r) => HarmlessLossKeepsTokens(w, r);
    case SubmitLogin(l) => SubmitLoginKeepsTokens(w, l);
    case FinishLogin(l) => FinishLoginKeepsTokens(w, l);
    case PressLogout => LogoutKeepsTokens(w);
  }

  // ---- Runs ----

  predicate CanRun(w: World, actions: seq<Action>)
    decreases |actions|
  {
    actions == [] || (Can(w, actions[0]) && CanRun(Do(w, actions[0]), actions[1..]))
  }

  function Run(w: World, actions: seq<Action>): World
    requires CanRun(w, actions)
    decreases |actions|
  {
    if actions == [] then w else Run(Do(w, actions[0]), actions[1..])
  }

  /** A freshly loaded page: nothing under way, and a live refresh token in storage, if any. */
  ghost predicate Init(w: World) {
    && w.promise == None && w.calls == map[] && w.refreshes == map[] && w.logins == map[] && w.logouts == multiset{}
    && (w.stored.Some? ==> IsLive(w, w.stored.value))
  }

  lemma {:induction false} RunKeepsSingleFlight(w: World, actions: seq<Action>)
    requires CanRun(w, actions) && SingleFlight(w) && CallsOk(w)
    ensures SingleFlight(Run(w, actions)) && CallsOk(Run(w, actions))
    decreases |actions|
  {
    hide Do, SingleFlight, CallsOk;
    if actions != [] {
      CallsKeepSingleFlight(w, actions[0]);
      RunKeepsSingleFlight(Do(w, actions[0]), actions[1..]);
    }
  }

  /** Some action of the run strands the page. */
  predicate StrandsInRun(w: World, actions: seq<Action>)
    requires CanRun(w, actions)
    decreases |actions|
  {
    actions != [] && (Strands(w, actions[0]) || StrandsInRun(Do(w, actions[0]), actions[1..]))
  }

  /** Whatever the network loses: at most one refresh is ever under way, it is the one every
      waiting call waits for, and no call sends its own request more than twice. */
  lemma AtMostOneRefresh(w: World, actions: seq<Action>)
    requires Init(w) && CanRun(w, actions)
    ensures var end := Run(w, actions);
            && |end.refreshes| <= 1
            && (end.promise.None? <==> end.refreshes == map[])
            && (forall c :: c in end.calls ==> end.calls[c].sent <= 2)
            && (forall c :: c in end.calls && end.calls[c].pc.Waiting? ==> end.calls[c].pc.promise in end.refreshes)
  {
    RunKeepsSingleFlight(w, actions);
    var end := Run(w, actions);
    if end.promise.Some? {
      assert end.refreshes.Keys == {end.promise.value};
    } else {
      assert end.refreshes.Keys == {};
    }
  }

  /** When no refresh is under way, the stored refresh token, if any, is live on the server. */
  ghost predicate IdleIsLive(w: World) {
    w.promise.None? && w.stored.Some? ==> IsLive(w, w.stored.value)
  }

  /** It is so at the start and after each action of the run. */
  ghost predicate AlwaysIdleIsLive(w: World, actions: seq<Action>)
    requires CanRun(w, actions)
    decreases |actions|
  {
    IdleIsLive(w) && (actions != [] ==> AlwaysIdleIsLive(Do(w, actions[0]), actions[1..]))
  }

  /** The exact cost of losing an answer: the stored token is dead afterwards if and only if it is
      the one that the lost answer would have replaced. */
  lemma LostAnswerStrands(w: World, r: RefreshId)
    requires Inv(w) && Can(w, LoseAnswer(r))
    ensures IdleIsLive(Do(w, LoseAnswer(r))) <==> !Strands(w, LoseAnswer(r))
    ensures Do(w, LoseAnswer(r)).stored == w.stored && Do(w, LoseAnswer(r)).promise == None
  {
  }

  lemma InvIsLive(w: World)
    requires Inv(w)
    ensures IdleIsLive(w)
  {
  }

  lemma {:induction false} IdleIsLiveExactly(w: World, actions: seq<Action>)
    requires Inv(w) && CanRun(w, actions)
    ensures AlwaysIdleIsLive(w, actions) <==> !StrandsInRun(w, actions)
    decreases |actions|
  {
    InvIsLive(w);
    if actions != [] {
      var a := actions[0];
      hide Do, Can, Inv, IdleIsLive;
      if Strands(w, a) {
        assert a.LoseAnswer?;
        LostAnswerStrands(w, a.r);
      } else {
        DoKeepsInv(w, a);
        IdleIsLiveExactly(Do(w, a), actions[1..]);
      }
    }
  }

  lemma FreshPageIsOk(w: World)
    requires Init(w)
    ensures Inv(w)
  {
  }

  /** Over whole runs: the stored refresh token is live at every moment without a refresh under way
      if and only if no answer is lost that carries its replacement, whatever calls, logins,
      logouts, expiries, same-second collisions and other losses happen, here or on other devices. */
  lemma StoredTokenIsLive(w: World, actions: seq<Action>)
    requires Init(w) && CanRun(w, actions)
    ensures AlwaysIdleIsLive(w, actions) <==> !StrandsInRun(w, actions)
  {
    FreshPageIsOk(w);
    IdleIsLiveExactly(w, actions);
  }
}
