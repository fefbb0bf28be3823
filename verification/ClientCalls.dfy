/** What becomes of a call, and of the stored token, over whole runs of the page. */
module ClientCalls {
  import opened Common
  import opened Tokens
  import opened SessionStore
  import opened ClientRefresh
  import A = AuthService

  lemma {:induction false} LastAction(w: World, actions: seq<Action>)
    requires CanRun(w, actions) && actions != []
    ensures var before := actions[..|actions| - 1];
            && CanRun(w, before) && Can(Run(w, before), actions[|actions| - 1])
            && Run(w, actions) == Do(Run(w, before), actions[|actions| - 1])
    decreases |actions|
  {
    hide Can, Do;
    if |actions| == 1 {
      assert actions[1..] == [] && actions[..0] == [];
    } else {
      LastAction(Do(w, actions[0]), actions[1..]);
      assert actions[1..][..|actions| - 2] == actions[..|actions| - 1][1..];
    }
  }

  // ---- The one retry ----

  /** The refresh that this call waits for ends. */
  predicate EndsWait(call: Call, a: Action) {
    (a.FinishRefresh? || a.LoseRequest? || a.LoseAnswer?) && call.pc == Waiting(a.r)
  }

  predicate IsOwn(c: CallId, a: Action) {
    (a.Resume? || a.FirstAnswer? || a.SecondAnswer?) && a.c == c
  }

  /** A call's own actions: a first answer settles it or makes it wait for the one refresh; it resumes
      by being sent again, or gives up; the second answer settles it. */
  lemma CallMovesByItself(w: World, a: Action, c: CallId)
    requires Can(w, a) && c in w.calls && IsOwn(c, a)
    ensures c in Do(w, a).calls
    ensures var call, call' := w.calls[c], Do(w, a).calls[c];
            && (a == Resume(c) && call.pc == Resumed(true) ==> call' == Call(Second, call.sent + 1))
            && (a == Resume(c) && call.pc == Resumed(false) ==> call' == Call(Settled, call.sent))
            && (a.FirstAnswer? && !a.unauthorized ==> call' == Call(Settled, call.sent))
            && (a.FirstAnswer? && a.unauthorized ==>
                  Do(w, a).promise.Some? && call' == Call(Waiting(Do(w, a).promise.value), call.sent))
            && (a.SecondAnswer? ==> call' == Call(Settled, call.sent))
  {
  }

  /** The end of its refresh wakes a waiting call, with or without a token; a lost one settles it. */
  lemma CallMovesWithItsRefresh(w: World, a: Action, c: CallId)
    requires Can(w, a) && c in w.calls && EndsWait(w.calls[c], a)
    ensures c in Do(w, a).calls
    ensures Do(w, a).calls[c] ==
            if a.FinishRefresh?
            then Call(Resumed(w.refreshes[a.r].Answered? && w.refreshes[a.r].reply != None), w.calls[c].sent)
            else Call(Settled, w.calls[c].sent)
  {
  }

  /** Nothing else moves a call. */
  lemma CallRests(w: World, a: Action, c: CallId)
    requires Can(w, a) && c in w.calls && !IsOwn(c, a) && !EndsWait(w.calls[c], a)
    ensures c in Do(w, a).calls && Do(w, a).calls[c] == w.calls[c]
  {
    hide A.ServeRefresh, A.ServeLogin, A.ServeLogout, Enabled, Apply, Holds;
  }

  lemma SentMoves(w: World, a: Action, c: CallId)
    requires Can(w, a) && c in w.calls
    ensures c in Do(w, a).calls
    ensures Do(w, a).calls[c].sent ==
            w.calls[c].sent + if a == Resume(c) && w.calls[c].pc == Resumed(true) then 1 else 0
  {
    if IsOwn(c, a) { CallMovesByItself(w, a, c); }
    else if EndsWait(w.calls[c], a) { CallMovesWithItsRefresh(w, a, c); }
    else { CallRests(w, a, c); }
    hide Do;
  }

  lemma NewCallIsSentOnce(w: World, a: Action, c: CallId)
    requires Can(w, a) && c !in w.calls && c in Do(w, a).calls
    ensures a == StartCall(c) && Do(w, a).calls[c] == Call(First, 1)
  {
  }

  /** The call resumes after its refresh delivered a token, as the i-th action of the run. */
  ghost predicate RetriedAt(w: World, actions: seq<Action>, c: CallId, i: nat)
    requires i < |actions|
  {
    && actions[i] == Resume(c) && CanRun(w, actions[..i])
    && c in Run(w, actions[..i]).calls && Run(w, actions[..i]).calls[c].pc == Resumed(true)
  }

  ghost predicate Retried(w: World, actions: seq<Action>, c: CallId) {
    exists i: nat :: i < |actions| && RetriedAt(w, actions, c, i)
  }

  lemma RetriedByLast(w: World, actions: seq<Action>, c: CallId)
    requires actions != []
    ensures var n := |actions| - 1;
            Retried(w, actions, c) <==> Retried(w, actions[..n], c) || RetriedAt(w, actions, c, n)
  {
    var n := |actions| - 1;
    forall i: nat | i < n ensures RetriedAt(w, actions, c, i) <==> RetriedAt(w, actions[..n], c, i) {
      assert actions[..n][..i] == actions[..i];
    }
    hide RetriedAt;
    if i: nat :| i < n && RetriedAt(w, actions[..n], c, i) { assert RetriedAt(w, actions, c, i); }
    if i: nat :| i < |actions| && RetriedAt(w, actions, c, i) { assert i < n ==> RetriedAt(w, actions[..n], c, i); }
  }

  /** In every run a call has sent its request twice if and only if it has resumed after a refresh
      that delivered a token, and once otherwise. */
  lemma {:induction false} RetriedExactly(w: World, actions: seq<Action>, c: CallId)
    requires Init(w) && CanRun(w, actions) && c in Run(w, actions).calls
    ensures Run(w, actions).calls[c].sent == if Retried(w, actions, c) then 2 else 1
    decreases |actions|
  {
    if actions != [] {
      var n := |actions| - 1;
      LastAction(w, actions);
      var before := Run(w, actions[..n]);
      RetriedByLast(w, actions, c);
      RunKeepsSingleFlightFromStart(w, actions[..n], c);
      hide Can, Do, CanRun, Run, Init, Retried;
      if c in before.calls {
        RetriedExactly(w, actions[..n], c);
        SentMoves(before, actions[n], c);
      } else {
        NewCallIsSentOnce(before, actions[n], c);
        NeverRetried(w, actions, c);
      }
    }
  }

  lemma NeverRetried(w: World, actions: seq<Action>, c: CallId)
    requires CanRun(w, actions) && actions != [] && actions[|actions| - 1] == StartCall(c)
    ensures !Retried(w, actions, c)
  {
    NotRetriedBeforeStart(w, actions, c);
  }

  lemma RunKeepsSingleFlightFromStart(w: World, actions: seq<Action>, c: CallId)
    requires Init(w) && CanRun(w, actions)
    ensures SingleFlight(Run(w, actions)) && CallsOk(Run(w, actions))
    ensures c in Run(w, actions).calls ==> CallOk(Run(w, actions), Run(w, actions).calls[c])
  {
    RunKeepsSingleFlight(w, actions);
  }

  /** Calls never disappear, so one that has just started was never retried. */
  lemma {:induction false} NotRetriedBeforeStart(w: World, actions: seq<Action>, c: CallId)
    requires CanRun(w, actions) && actions != [] && actions[|actions| - 1] == StartCall(c)
    ensures forall i: nat :: i < |actions| ==> !RetriedAt(w, actions, c, i)
  {
    var n := |actions| - 1;
    LastAction(w, actions);
    assert c !in Run(w, actions[..n]).calls;
    forall i: nat | i < n && CanRun(w, actions[..i]) ensures c !in Run(w, actions[..i]).calls {
      assert actions[..n][..i] == actions[..i];
      CallsStay(w, actions[..n], i, c);
    }
  }

  lemma {:induction false} CallsStay(w: World, actions: seq<Action>, i: nat, c: CallId)
    requires CanRun(w, actions) && i <= |actions|
    ensures CanRun(w, actions[..i])
    ensures c in Run(w, actions[..i]).calls ==> c in Run(w, actions).calls
    decreases |actions|
  {
    if i == |actions| {
      assert actions[..i] == actions;
    } else {
      var n := |actions| - 1;
      LastAction(w, actions);
      CallsStay(w, actions[..n], i, c);
      assert actions[..n][..i] == actions[..i];
      if c in Run(w, actions[..n]).calls { SentMoves(Run(w, actions[..n]), actions[n], c); }
    }
  }

  // ---- No call is stuck ----

  /** How far a call is from its end. */
  function Distance(w: World, c: CallId): nat
    requires c in w.calls
  {
    match w.calls[c].pc
    case Settled => 0
    case First => 1
    case Second => 1
    case Resumed(_) => 2
    case Waiting(r) => if r in w.refreshes && w.refreshes[r].Asked? then 4 else 3
  }

  /** What this call, or the refresh it waits for, can do next. */
  function NextFor(w: World, c: CallId, r: RefreshId): Action
    requires c in w.calls
  {
    match w.calls[c].pc
    case First => FirstAnswer(c, false, r)
    case Second => SecondAnswer(c, false)
    case Waiting(p) =>
      if p in w.refreshes && w.refreshes[p].Asked? then ServerRefresh(p, A.Moment({}, 0, 0, 0, 0)) else FinishRefresh(p)
    case _ => Resume(c)
  }

  lemma NextBringsNearer(w: World, c: CallId, r: RefreshId)
    requires SingleFlight(w) && CallsOk(w) && c in w.calls && !w.calls[c].pc.Settled? && r !in w.refreshes
    ensures Can(w, NextFor(w, c, r))
    ensures var w' := Do(w, NextFor(w, c, r)); c in w'.calls && Distance(w', c) < Distance(w, c)
  {
    assert CallOk(w, w.calls[c]);
    hide A.ServeRefresh;
  }

  /** Without losing anything: from every state a page can be in, every call can run to its end. */
  lemma {:induction false} NoCallIsStuck(w: World, c: CallId) returns (actions: seq<Action>)
    requires SingleFlight(w) && CallsOk(w) && c in w.calls
    ensures CanRun(w, actions) && c in Run(w, actions).calls && Run(w, actions).calls[c].pc.Settled?
    ensures forall a :: a in actions ==> !a.LoseRequest? && !a.LoseAnswer?
    decreases Distance(w, c)
  {
    if w.calls[c].pc.Settled? {
      actions := [];
    } else {
      var r := FreshNat(w.refreshes.Keys);
      var a := NextFor(w, c, r);
      NextBringsNearer(w, c, r);
      CallsKeepSingleFlight(w, a);
      hide Can, Do, SingleFlight, CallsOk, Distance;
      var rest := NoCallIsStuck(Do(w, a), c);
      actions := [a] + rest;
      assert actions[1..] == rest;
    }
  }

  // ---- The exchanges with the server ----

  /** What each action does to the refresh token in local storage. */
  lemma StoredMoves(w: World, a: Action)
    requires Can(w, a)
    ensures Do(w, a).stored ==
            match a {
              case FinishRefresh(r) => if w.refreshes[r].Answered? then w.refreshes[r].reply else w.stored
              case FinishLogin(l) => if w.logins[l].reply != None then w.logins[l].reply else w.stored
              case PressLogout => None
              case Resume(c) => if w.calls[c].pc == Resumed(false) then None else w.stored
              case SecondAnswer(_, unauthorized) => if unauthorized then None else w.stored
              case _ => w.stored
            }
  {
  }

  lemma RunFirst(w: World, a: Action, rest: seq<Action>)
    requires Can(w, a) && CanRun(Do(w, a), rest)
    ensures CanRun(w, [a] + rest) && Run(w, [a] + rest) == Run(Do(w, a), rest)
  {
    hide Can, Do;
    assert ([a] + rest)[1..] == rest;
  }

  lemma RunOne(w: World, a: Action)
    requires Can(w, a)
    ensures CanRun(w, [a]) && Run(w, [a]) == Do(w, a)
  {
    hide Can, Do;
    assert CanRun(Do(w, a), []) && Run(Do(w, a), []) == Do(w, a);
    RunFirst(w, a, []);
    assert [a] + [] == [a];
  }

  lemma RunThree(w: World, a: Action, b: Action, c: Action)
    requires Can(w, a) && Can(Do(w, a), b) && Can(Do(Do(w, a), b), c)
    ensures CanRun(w, [a, b, c]) && Run(w, [a, b, c]) == Do(Do(Do(w, a), b), c)
  {
    hide Can, Do, CanRun, Run;
    RunOne(Do(Do(w, a), b), c);
    RunFirst(Do(w, a), b, [c]);
    assert [b] + [c] == [b, c];
    RunFirst(w, a, [b, c]);
    assert [a] + [b, c] == [a, b, c];
  }

  lemma RefreshStarts(w: World, c: CallId, r: RefreshId)
    requires c in w.calls && w.calls[c] == Call(First, 1) && w.promise == None && w.refreshes == map[] && w.stored.Some?
    ensures Can(w, FirstAnswer(c, true, r))
    ensures Do(w, FirstAnswer(c, true, r))
            == w.(calls := w.calls[c := Call(Waiting(r), 1)], promise := Some(r),
                  refreshes := map[r := Asked(w.stored.value)])
  {
  }

  lemma RefreshIsServed(w: World, r: RefreshId, t: Token, m: A.Moment)
    requires w.refreshes == map[r := Asked(t)]
    ensures var (store', reply) := A.ServeRefresh(w.store, m, t);
            && Can(w, ServerRefresh(r, m))
            && Do(w, ServerRefresh(r, m)) == w.(store := store', refreshes :=
                 map[r := Answered(t, if reply.Success? then Some(reply.value) else None)])
  {
    hide A.ServeRefresh;
  }

  lemma RefreshDelivers(w: World, r: RefreshId, t: Token, reply: Option<Token>)
    requires w.refreshes == map[r := Answered(t, reply)]
    ensures var w' := Do(w, FinishRefresh(r));
            && w' == w.(promise := None, stored := reply, refreshes := map[], calls := w'.calls)
            && w'.calls.Keys == w.calls.Keys
            && forall c :: c in w.calls ==>
                 w'.calls[c] == if w.calls[c].pc != Waiting(r) then w.calls[c]
                                else w.calls[c].(pc := Resumed(reply.Some?))
  {
  }

  /** A call answered 401 starts the one refresh with the stored token; the server serves it; the page
      stores what it gets and sends the call again, or clears the session and gives up. */
  lemma RefreshExchange(w: World, c: CallId, r: RefreshId, m: A.Moment)
    requires SingleFlight(w) && CallsOk(w) && c in w.calls && w.calls[c].pc == First
    requires w.promise == None && w.stored.Some?
    ensures var actions := [FirstAnswer(c, true, r), ServerRefresh(r, m), FinishRefresh(r), Resume(c)];
            var (store', reply) := A.ServeRefresh(w.store, m, w.stored.value);
            && CanRun(w, actions)
            && var end := Run(w, actions);
            && end.store == store' && end.promise == None && end.refreshes == map[]
            && end.logins == w.logins && end.logouts == w.logouts
            && (reply.Success? ==> end.stored == Some(reply.value) && end.calls == w.calls[c := Call(Second, 2)])
            && (reply.Failure? ==> end.stored == None && end.calls == w.calls[c := Call(Settled, 1)])
  {
    StartOfRefresh(w, c, r);
    hide A.ServeRefresh, SingleFlight, CallsOk, Do, Can, CanRun, Run;
    var reply := A.ServeRefresh(w.store, m, w.stored.value).1;
    var w1, w2, w3 := WorldsOfRefresh(w, c, r, m);
    CallResumes(w3, c, reply.Success?);
    RunRefresh(w, w1, w2, w3, c, r, m);
    SameElsewhere(w.calls, w3.calls, c, if reply.Success? then Call(Second, 2) else Call(Settled, 1));
  }

  lemma StartOfRefresh(w: World, c: CallId, r: RefreshId)
    requires SingleFlight(w) && CallsOk(w) && c in w.calls && w.calls[c].pc == First && w.promise == None
    ensures w.calls[c] == Call(First, 1) && w.refreshes == map[]
    ensures forall k :: k in w.calls ==> w.calls[k].pc != Waiting(r)
  {
    assert CallOk(w, w.calls[c]);
    forall k | k in w.calls ensures w.calls[k].pc != Waiting(r) { assert CallOk(w, w.calls[k]); }
  }

  lemma SameElsewhere(m: map<CallId, Call>, n: map<CallId, Call>, c: CallId, call: Call)
    requires n.Keys == m.Keys && forall k :: k in m && k != c ==> n[k] == m[k]
    ensures n[c := call] == m[c := call]
  {
  }

  lemma CallResumes(w: World, c: CallId, ok: bool)
    requires c in w.calls && w.calls[c] == Call(Resumed(ok), 1)
    ensures Can(w, Resume(c))
    ensures Do(w, Resume(c)) == w.(calls := w.calls[c := if ok then Call(Second, 2) else Call(Settled, 1)],
                                   stored := if ok then w.stored else None)
  {
  }

  lemma RunRefresh(w: World, w1: World, w2: World, w3: World, c: CallId, r: RefreshId, m: A.Moment)
    requires Can(w, FirstAnswer(c, true, r)) && w1 == Do(w, FirstAnswer(c, true, r))
    requires Can(w1, ServerRefresh(r, m)) && w2 == Do(w1, ServerRefresh(r, m))
    requires Can(w2, FinishRefresh(r)) && w3 == Do(w2, FinishRefresh(r)) && Can(w3, Resume(c))
    ensures var actions := [FirstAnswer(c, true, r), ServerRefresh(r, m), FinishRefresh(r), Resume(c)];
            CanRun(w, actions) && Run(w, actions) == Do(w3, Resume(c))
  {
    hide Do, Can, CanRun, Run;
    var rest := [ServerRefresh(r, m), FinishRefresh(r), Resume(c)];
    RunThree(Do(w, FirstAnswer(c, true, r)), ServerRefresh(r, m), FinishRefresh(r), Resume(c));
    RunFirst(w, FirstAnswer(c, true, r), rest);
    assert [FirstAnswer(c, true, r)] + rest
           == [FirstAnswer(c, true, r), ServerRefresh(r, m), FinishRefresh(r), Resume(c)];
  }

  lemma WorldsOfRefresh(w: World, c: CallId, r: RefreshId, m: A.Moment) returns (w1: World, w2: World, w3: World)
    requires c in w.calls && w.calls[c] == Call(First, 1) && w.promise == None && w.refreshes == map[] && w.stored.Some?
    requires forall k :: k in w.calls ==> w.calls[k].pc != Waiting(r)
    ensures Can(w, FirstAnswer(c, true, r)) && w1 == Do(w, FirstAnswer(c, true, r))
    ensures Can(w1, ServerRefresh(r, m)) && w2 == Do(w1, ServerRefresh(r, m))
    ensures Can(w2, FinishRefresh(r)) && w3 == Do(w2, FinishRefresh(r))
    ensures var (store', reply) := A.ServeRefresh(w.store, m, w.stored.value);
            && w3.store == store' && w3.promise == None && w3.refreshes == map[]
            && w3.stored == (if reply.Success? then Some(reply.value) else None)
            && w3.logins == w.logins && w3.logouts == w.logouts && w3.calls.Keys == w.calls.Keys
            && forall k :: k in w.calls ==>
                 w3.calls[k] == if k == c then Call(Resumed(reply.Success?), 1) else w.calls[k]
  {
    hide A.ServeRefresh, Do;
    var reply := A.ServeRefresh(w.store, m, w.stored.value).1;
    RefreshStarts(w, c, r);
    w1 := Do(w, FirstAnswer(c, true, r));
    RefreshIsServed(w1, r, w.stored.value, m);
    w2 := Do(w1, ServerRefresh(r, m));
    RefreshDelivers(w2, r, w.stored.value, if reply.Success? then Some(reply.value) else None);
    w3 := Do(w2, FinishRefresh(r));
  }

  lemma {:induction false} RunJoins(w: World, first: seq<Action>, rest: seq<Action>)
    requires CanRun(w, first) && CanRun(Run(w, first), rest)
    ensures CanRun(w, first + rest) && Run(w, first + rest) == Run(Run(w, first), rest)
    decreases |first|
  {
    hide Can, Do;
    if first == [] {
      assert first + rest == rest;
    } else {
      assert (first + rest)[1..] == first[1..] + rest;
      RunJoins(Do(w, first[0]), first[1..], rest);
    }
  }

  /** The second answer ends the call, after two sends; a second 401 clears the session. */
  lemma RetryEnds(w: World, c: CallId, unauthorized: bool)
    requires c in w.calls && w.calls[c] == Call(Second, 2)
    ensures CanRun(w, [SecondAnswer(c, unauthorized)])
    ensures Run(w, [SecondAnswer(c, unauthorized)])
            == w.(calls := w.calls[c := Call(Settled, 2)], stored := if unauthorized then None else w.stored)
  {
    RunOne(w, SecondAnswer(c, unauthorized));
  }

  /** From every fresh page whose stored token the server accepts, a call answered 401 is sent a second
      time and settles, with the new token stored. */
  lemma RetryHappens(w: World, c: CallId, r: RefreshId, m: A.Moment) returns (actions: seq<Action>)
    requires Init(w) && w.stored.Some? && A.ServeRefresh(w.store, m, w.stored.value).1.Success?
    ensures CanRun(w, actions)
    ensures var (store', reply) := A.ServeRefresh(w.store, m, w.stored.value);
            var end := Run(w, actions);
            && c in end.calls && end.calls[c] == Call(Settled, 2)
            && end.store == store' && end.stored == Some(reply.value) && end.promise == None
  {
    var w1 := w.(calls := map[c := Call(First, 1)]);
    assert Do(w, StartCall(c)) == w1;
    RunOne(w, StartCall(c));
    assert SingleFlight(w1) && CallsOk(w1);
    hide Init, Can, Do, CanRun, Run, SingleFlight, CallsOk, A.ServeRefresh;
    RefreshExchange(w1, c, r, m);
    var exchange := [FirstAnswer(c, true, r), ServerRefresh(r, m), FinishRefresh(r), Resume(c)];
    RunJoins(w, [StartCall(c)], exchange);
    var w2 := Run(w1, exchange);
    RetryEnds(w2, c, false);
    RunJoins(w, [StartCall(c)] + exchange, [SecondAnswer(c, false)]);
    actions := [StartCall(c)] + exchange + [SecondAnswer(c, false)];
  }

  /** While a refresh is under way, further calls answered 401 wait for it and start none. */
  lemma OthersJoin(w: World, c: CallId, r: RefreshId)
    requires Can(w, FirstAnswer(c, true, r)) && w.promise.Some?
    ensures Do(w, FirstAnswer(c, true, r)) == w.(calls := w.calls[c := Call(Waiting(w.promise.value), w.calls[c].sent)])
  {
  }

  /** A login stores the token the server made for it, or leaves the page as it was. */
  lemma LoginExchange(w: World, l: LoginId, m: A.Moment, u: UserId)
    requires l !in w.logins
    ensures var actions := [SubmitLogin(l), ServerLogin(l, m, u), FinishLogin(l)];
            var (store', reply) := A.ServeLogin(w.store, m, u);
            && CanRun(w, actions)
            && Run(w, actions) == w.(store := store', stored := if reply.Success? then Some(reply.value) else w.stored)
  {
    hide A.ServeLogin;
    var w1 := Do(w, SubmitLogin(l));
    var w2 := Do(w1, ServerLogin(l, m, u));
    assert w2.logins - {l} == w.logins;
    RunThree(w, SubmitLogin(l), ServerLogin(l, m, u), FinishLogin(l));
  }

  /** A logout clears the page at once and revokes exactly the token that was stored. */
  lemma LogoutExchange(w: World, m: A.Moment)
    requires w.stored.Some?
    ensures var actions := [PressLogout, ServerLogout(w.stored.value, m)];
            && CanRun(w, actions)
            && Run(w, actions) == w.(store := A.ServeLogout(w.store, m, w.stored.value), stored := None)
  {
    hide A.ServeLogout;
    var t := w.stored.value;
    var w1 := Do(w, PressLogout);
    assert w1.logouts - multiset{t} == w.logouts;
    assert [PressLogout, ServerLogout(t, m)][1..] == [ServerLogout(t, m)] && [ServerLogout(t, m)][1..] == [];
    assert CanRun(w1, [ServerLogout(t, m)]) && Run(w1, [ServerLogout(t, m)]) == Do(w1, ServerLogout(t, m));
  }

  // ---- What the page, the network and the rest of the world are free to do ----

  /** At any moment the page can start calls and logins and press logout, a call can be answered
      either way, a refresh can be served or lost on either way, and other devices can log in, or
      spend any session whose token is not with this page. */
  lemma AnythingCanHappen(w: World, c: CallId, l: LoginId, r: RefreshId, m: A.Moment, u: UserId, op: SessionOp)
    ensures Can(w, PressLogout)
    ensures c !in w.calls ==> Can(w, StartCall(c))
    ensures c in w.calls && w.calls[c].pc == First && r !in w.refreshes ==>
              Can(w, FirstAnswer(c, true, r)) && Can(w, FirstAnswer(c, false, r))
    ensures c in w.calls && w.calls[c].pc == Second ==> Can(w, SecondAnswer(c, true)) && Can(w, SecondAnswer(c, false))
    ensures r in w.refreshes && w.refreshes[r].Asked? ==> Can(w, ServerRefresh(r, m)) && Can(w, LoseRequest(r))
    ensures r in w.refreshes && w.refreshes[r].Answered? ==> Can(w, FinishRefresh(r)) && Can(w, LoseAnswer(r))
    ensures l !in w.logins ==> Can(w, SubmitLogin(l))
    ensures l in w.logins && w.logins[l].Submitted? ==> Can(w, ServerLogin(l, m, u))
    ensures forall t :: t in w.logouts ==> Can(w, ServerLogout(t, m))
    ensures Enabled(w.store, op) && (op.LoginOp? || ((op.RotateOp? || op.LogoutOp?) && !Holds(w, op.spent.token))) ==>
              Can(w, Elsewhere(op)) && Do(w, Elsewhere(op)) == w.(store := Apply(w.store, op))
  {
  }
}
