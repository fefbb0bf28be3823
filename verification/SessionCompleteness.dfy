/** Every serial run of logins, refreshes and logouts is a run of the interleaving machine, with the
    same session table and the same errors.
 */
module SessionCompleteness {
  import opened Common
  import opened Tokens
  import opened SessionStore
  import opened SessionTransactions
  import opened AuthService
  import opened CommitLog

  ghost predicate Reaches(s: State, s': State) {
    exists actions :: CanRun(s, actions) && Run(s, actions) == s'
  }

  lemma {:induction false} RunOneMore(s: State, actions: seq<Action>, a: Action)
    requires CanRun(s, actions) && Can(Run(s, actions), a)
    ensures CanRun(s, actions + [a]) && Run(s, actions + [a]) == Do(Run(s, actions), a)
    decreases |actions|
  {
    hide Can, Do;
    if actions == [] {
      assert actions + [a] == [a] && [a][1..] == [];
      assert CanRun(Do(s, a), []);
    } else {
      assert (actions + [a])[1..] == actions[1..] + [a];
      RunOneMore(Do(s, actions[0]), actions[1..], a);
    }
  }

  lemma Next(s: State, s': State, a: Action) returns (s'': State)
    requires Reaches(s, s') && Can(s', a)
    ensures s'' == Do(s', a) && Reaches(s, s'')
  {
    hide Can, Do, CanRun, Run;
    var actions :| CanRun(s, actions) && Run(s, actions) == s';
    RunOneMore(s, actions, a);
    s'' := Do(s', a);
  }

  ghost predicate Quiet(s: State) {
    forall t :: t in s.txs ==> Finished(s.txs[t])
  }

  ghost predicate Sole(s0: State, s: State, t: TxId) {
    && Reaches(s0, s) && Inv(s) && t in s.txs
    && forall t' :: t' in s.txs && t' != t ==> Finished(s.txs[t'])
  }

  predicate SameSetting(s: State, s': State) {
    s'.accounts == s.accounts && s'.lifetime == s.lifetime && s'.store == s.store
  }

  lemma NobodyElseLocks(s0: State, s: State, t: TxId, h: TokenHash)
    requires Sole(s0, s, t)
    ensures !LockedByOther(s, t, h)
  {
    hide Reaches;
    forall t' | t' in s.txs && t' != t ensures s.txs[t'].locks == {} {
      assert TxOk(s.store, s.txs[t']);
    }
  }

  lemma OwnAction(s0: State, s: State, t: TxId, a: Action) returns (s': State)
    requires Sole(s0, s, t) && Can(s, a) && !a.Begin? && a.t == t
    ensures s' == Do(s, a) && Sole(s0, s', t)
  {
    s' := Next(s0, s, a);
    DoKeepsInv(s, a);
    hide Reaches, Inv, Step, OpOf, Can;
  }

  lemma StatementAlone(s0: State, s: State, t: TxId, clock: int) returns (s': State)
    requires Sole(s0, s, t) && t in s.txs && !Finished(s.txs[t]) && !s.txs[t].pc.Ready?
    ensures Sole(s0, s', t) && SameSetting(s, s') && s'.txs == s.txs[t := Step(s, s.txs[t], clock)]
  {
    forall h ensures !LockedByOther(s, t, h) { NobodyElseLocks(s0, s, t, h); }
    hide Sole, LockedByOther, Step, Needed;
    s' := OwnAction(s0, s, t, Statement(t, clock));
  }

  lemma StepReadsSetting(s: State, s': State, tx: Tx, clock: int)
    requires SameSetting(s, s')
    ensures Step(s', tx, clock) == Step(s, tx, clock)
  {
  }

  lemma {:induction false} SettingDecides(s: State, s': State, tx: Tx, m: Moment, k: nat)
    requires SameSetting(s, s')
    ensures StepsAlone(s', tx, m, k) == StepsAlone(s, tx, m, k)
    decreases k
  {
    hide Step;
    if k > 0 && !Finished(tx) && !tx.pc.Ready? {
      var clock := ClockFor(tx, m);
      StepReadsSetting(s, s', tx, clock);
      SettingDecides(s, s', Step(s, tx, clock), m, k - 1);
    }
  }

  lemma {:induction false} StepsReach(s0: State, s: State, t: TxId, m: Moment, k: nat) returns (s': State)
    requires Sole(s0, s, t) && t in s.txs
    ensures Sole(s0, s', t) && SameSetting(s, s') && t in s'.txs && s'.txs.Keys == s.txs.Keys
    ensures s'.txs[t] == StepsAlone(s, s.txs[t], m, k)
    decreases k
  {
    hide Sole, Step;
    var tx := s.txs[t];
    if k == 0 || Finished(tx) || tx.pc.Ready? {
      s' := s;
    } else {
      var s1 := StatementAlone(s0, s, t, ClockFor(tx, m));
      s' := StepsReach(s0, s1, t, m, k - 1);
      SettingDecides(s, s1, s1.txs[t], m, k - 1);
    }
  }

  /** The outcome of one request served whole: the table and the error, if any. */
  function Outcome(store: Store, m: Moment, req: Request): (Store, Option<AuthError>) {
    match req
    case Login(u) =>
      var (store', reply) := ServeLogin(store, m, u);
      (store', if reply.Success? then None else Some(reply.error))
    case Refresh(token) =>
      var (store', reply) := ServeRefresh(store, m, token);
      (store', if reply.Success? then None else Some(reply.error))
    case Logout(token) => (ServeLogout(store, m, token), None)
  }

  lemma RequestAlone(s: State, m: Moment, req: Request)
    requires s.accounts == m.accounts && s.lifetime == m.lifetime
    ensures var end := StepsAlone(s, NewTx(req), m, 4);
            var (store', error) := Outcome(s.store, m, req);
            match error {
              case None => end.pc == Ready && s.store + end.writes == store'
              case Some(e) => end.pc == Aborted(e) && store' == s.store
            }
  {
    match req
    case Login(u) => LoginAlone(s, m, u); StepsStop(s, NewTx(req), m, 2, 2);
    case Refresh(token) => RefreshAlone(s, m, token);
    case Logout(token) => LogoutAlone(s, m, token); StepsStop(s, NewTx(req), m, 2, 2);
  }

  /** Once finished or ready, further steps change nothing. */
  lemma {:induction false} StepsStop(s: State, tx: Tx, m: Moment, k: nat, more: nat)
    requires var end := StepsAlone(s, tx, m, k); Finished(end) || end.pc.Ready?
    ensures StepsAlone(s, tx, m, k + more) == StepsAlone(s, tx, m, k)
    decreases k
  {
    hide Step;
    if k > 0 && !Finished(tx) && !tx.pc.Ready? { StepsStop(s, Step(s, tx, ClockFor(tx, m)), m, k - 1, more); }
  }

  lemma Starts(s0: State, s: State, req: Request) returns (t: TxId, s': State)
    requires Reaches(s0, s) && Inv(s) && Quiet(s)
    ensures t !in s.txs && Sole(s0, s', t) && s' == s.(txs := s.txs[t := NewTx(req)])
  {
    t := FreshNat(s.txs.Keys);
    s' := Next(s0, s, Begin(t, req));
    DoKeepsInv(s, Begin(t, req));
  }

  lemma Ends(s0: State, s: State, t: TxId) returns (s': State)
    requires Sole(s0, s, t) && t in s.txs && (s.txs[t].pc.Ready? || s.txs[t].pc.Aborted?)
    ensures Reaches(s0, s') && Inv(s') && Quiet(s') && t in s'.txs
    ensures s'.accounts == s.accounts && s'.lifetime == s.lifetime
    ensures s.txs[t].pc.Ready? ==> s'.store == s.store + s.txs[t].writes && s'.txs[t].pc == Committed
    ensures s.txs[t].pc.Aborted? ==> s' == s
  {
    if s.txs[t].pc.Ready? { s' := OwnAction(s0, s, t, Commit(t)); } else { s' := s; }
    hide Reaches, Inv, OpOf;
  }

  /** From any quiet state the machine can serve a request as AuthService serves it whole. */
  lemma RequestReaches(s0: State, s: State, m: Moment, req: Request) returns (s': State, t: TxId)
    requires Reaches(s0, s) && Inv(s) && Quiet(s) && s.accounts == m.accounts && s.lifetime == m.lifetime
    ensures Reaches(s0, s') && Inv(s') && Quiet(s') && s'.accounts == s.accounts && s'.lifetime == s.lifetime
    ensures t !in s.txs && t in s'.txs && s'.store == Outcome(s.store, m, req).0
    ensures s'.txs[t].pc == match Outcome(s.store, m, req).1 { case None => Committed case Some(e) => Aborted(e) }
  {
    hide Reaches, Inv, Quiet, Sole, StepsAlone, Outcome, NewTx;
    RequestAlone(s, m, req);
    var s1;
    t, s1 := Starts(s0, s, req);
    SettingDecides(s, s1, NewTx(req), m, 4);
    var s2 := StepsReach(s0, s1, t, m, 4);
    s' := Ends(s0, s2, t);
  }

  datatype AuthCall = AuthCall(req: Request, moment: Moment)

  function ServeAll(store: Store, calls: seq<AuthCall>): Store
    decreases |calls|
  {
    if calls == [] then store else ServeAll(Outcome(store, calls[0].moment, calls[0].req).0, calls[1..])
  }

  lemma {:induction false} CallsReach(s0: State, s: State, calls: seq<AuthCall>) returns (s': State)
    requires Reaches(s0, s) && Inv(s) && Quiet(s)
    requires forall i :: 0 <= i < |calls| ==>
               calls[i].moment.accounts == s.accounts && calls[i].moment.lifetime == s.lifetime
    ensures Reaches(s0, s') && Quiet(s') && s'.store == ServeAll(s.store, calls)
    decreases |calls|
  {
    hide Reaches, Inv, Quiet, Outcome;
    if calls == [] {
      s' := s;
    } else {
      var s1, t := RequestReaches(s0, s, calls[0].moment, calls[0].req);
      s' := CallsReach(s0, s1, calls[1..]);
    }
  }

  /** Every serial run of requests is a run of the machine, and ends with the same table. */
  lemma SerialSessionsAreInterleavings(s: State, calls: seq<AuthCall>)
    requires Init(s)
    requires forall i :: 0 <= i < |calls| ==>
               calls[i].moment.accounts == s.accounts && calls[i].moment.lifetime == s.lifetime
    ensures exists s' :: Reaches(s, s') && Quiet(s') && s'.store == ServeAll(s.store, calls)
  {
    assert CanRun(s, []) && Run(s, []) == s;
    var s' := CallsReach(s, s, calls);
  }
}
