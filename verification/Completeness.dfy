/** The other half of serializability: every serial run of whole requests is also a run of the
    interleaving machine, with the same tables and the same replies.
 */
module Completeness {
  import opened Common
  import opened Tables
  import opened Transactions
  import opened CommitLog
  import opened Serializability
  import opened SerialRuns
  import opened Reachability
  import H = Histories

  // ---- What a call asks of the machine ----

  function AdminRequest(op: Op): Request
    requires !op.IssueOp? && !op.ReturnOp?
  {
    match op
    case CreateUserOp(u) => CreateUser(u)
    case DeleteUserOp(u) => DeleteUser(u)
    case CreateBookOp(b, title, copies) => CreateBook(b, title, copies)
    case UpdateBookOp(b, title, copies) => UpdateBook(b, title, copies)
    case DeleteBookOp(b) => DeleteBook(b)
  }

  function RequestOf(c: Call): Request
    requires WellFormed(c)
  {
    match c
    case IssueCall(u, b, _, _, _) => Issue(u, b)
    case ReturnCall(l, _) => Return(l)
    case AdminCall(op) => AdminRequest(op)
  }

  function ErrorOf<T>(reply: Reply<T>): Option<Error> {
    if reply.Success? then None else Some(reply.error)
  }

  /** The error a served call raises, if any. */
  function Outcome(db: Db, c: Call): Option<Error>
    requires WellFormed(c)
  {
    match c
    case IssueCall(u, b, start, now, id) => ErrorOf(ServeIssue(db, u, b, start, now, id).1)
    case ReturnCall(l, now) => ErrorOf(ServeReturn(db, l, now).1)
    case AdminCall(op) => ErrorOf(ServeAdmin(db, op).1)
  }

  // ---- One transaction without company ----

  ghost predicate Quiet(s: State) {
    forall t :: t in s.txs ==> Finished(s.txs[t])
  }

  /** A reachable state in which all transactions but this one have finished. */
  ghost predicate Sole(s0: State, s: State, t: TxId) {
    && Reaches(s0, s) && Inv(s) && t in s.txs
    && forall t' :: t' in s.txs && t' != t ==> Finished(s.txs[t'])
  }

  lemma NobodyElseLocks(s0: State, s: State, t: TxId, r: Row)
    requires Sole(s0, s, t)
    ensures !LockedByOther(s, t, r)
  {
    hide Valid, Reaches;
    forall t' | t' in s.txs && t' != t ensures s.txs[t'].locks == {} {
      assert TxOk(s.db, s.born, s.txs[t']);
    }
  }

  /** One action of a transaction that runs alone. */
  lemma OwnAction(s0: State, s: State, t: TxId, a: Action) returns (s': State)
    requires Sole(s0, s, t) && Can(s, a) && !a.Begin? && a.t == t
    ensures s' == Do(s, a) && Sole(s0, s', t)
  {
    s' := Next(s0, s, a);
    DoKeepsInv(s, a);
    hide Reaches, Inv, Step, Install, OpOf, NewLoan, Can;
  }

  lemma Starts(s0: State, s: State, req: Request) returns (t: TxId, s': State)
    requires Reaches(s0, s) && Inv(s) && Quiet(s)
    ensures t !in s.txs && Sole(s0, s', t) && s' == s.(txs := s.txs[t := NewTx(req)])
  {
    t := FreshNat(s.txs.Keys);
    s' := Next(s0, s, Begin(t, req));
    DoKeepsInv(s, Begin(t, req));
  }

  lemma StatementAlone(s0: State, s: State, t: TxId, now: int, id: LoanId) returns (s': State)
    requires Sole(s0, s, t) && HasStatement(s.txs[t]) && id !in s.born
    ensures Sole(s0, s', t) && s'.db == s.db && s'.txs == s.txs[t := Step(s.db, s.txs[t], now, id)]
    ensures s'.born.Keys <= s.born.Keys + {id}
    ensures !s.txs[t].req.Issue? || HasStatement(s'.txs[t]) ==> s'.born == s.born
    ensures s'.txs[t].req == s.txs[t].req
    ensures s'.log == s.log
  {
    forall r ensures !LockedByOther(s, t, r) { NobodyElseLocks(s0, s, t, r); }
    H.StepDrawsId(s.db, s.txs[t], now, id);
    hide Sole, LockedByOther, Step, Needed, NewLoan;
    s' := OwnAction(s0, s, t, Statement(t, now, id));
  }

  /** The machine can run the statements of StepsAlone. */
  lemma {:induction false} StepsReach(s0: State, s: State, t: TxId, k: nat, start: int, now: int, id: LoanId)
      returns (s': State)
    requires Sole(s0, s, t) && t in s.txs && id !in s.born
    ensures Sole(s0, s', t) && s'.db == s.db && s'.log == s.log && s'.txs.Keys == s.txs.Keys
    ensures t in s'.txs && s'.txs[t] == StepsAlone(s.db, s.txs[t], k, start, now, id)
    ensures s'.born.Keys <= s.born.Keys + {id} && (!s.txs[t].req.Issue? ==> s'.born == s.born)
    ensures s'.txs[t].req == s.txs[t].req
    decreases k
  {
    hide Step, StepsAlone, Sole, HasStatement;
    var tx, clock := s.txs[t], if s.txs[t].pc.CheckOverdue? then start else now;
    Unroll(s.db, tx, k, start, now, id);
    if k == 0 || !HasStatement(tx) {
      NoSteps(s.db, tx, k, start, now, id);
      s' := s;
    } else {
      var s1 := StatementAlone(s0, s, t, clock, id);
      if HasStatement(s1.txs[t]) {
        s' := StepsReach(s0, s1, t, k - 1, start, now, id);
      } else {
        Unroll(s.db, s1.txs[t], k - 1, start, now, id);
        s' := s1;
      }
    }
  }

  lemma NoSteps(db: Db, tx: Tx, k: nat, start: int, now: int, id: LoanId)
    requires k == 0 || !HasStatement(tx)
    ensures StepsAlone(db, tx, k, start, now, id) == tx
  {
  }

  lemma CommitAlone(s0: State, s: State, t: TxId) returns (s': State)
    requires Sole(s0, s, t) && s.txs[t].pc.Ready?
    ensures Reaches(s0, s') && Inv(s') && Quiet(s') && s'.born == s.born
    ensures s'.txs.Keys == s.txs.Keys && s'.txs[t].req == s.txs[t].req && s'.txs[t].pc == Committed
    ensures Enabled(s.db, OpOf(s.txs[t])) && s'.db == Install(s.db, s.txs[t].writes) == Apply(s.db, OpOf(s.txs[t]))
  {
    CommitKeepsInv(s, t);
    s' := OwnAction(s0, s, t, Commit(t));
    hide Reaches, Inv, Install, Apply, Enabled, OpOf;
  }

  lemma SoleEnds(s0: State, s: State, t: TxId)
    requires Sole(s0, s, t) && Finished(s.txs[t])
    ensures Reaches(s0, s) && Inv(s) && Quiet(s)
  {
    hide Reaches, Inv;
  }

  // ---- Administrative requests ----

  /** The loans the foreign key has not reached yet. */
  function Remaining(db: Db, tx: Tx): set<LoanId> {
    set l | l in db.loans && IsVictim(db, tx.req, l) && l !in tx.writes.loans
  }

  lemma RemainingShrinks(db: Db, tx: Tx, l: LoanId)
    requires l in Remaining(db, tx)
    ensures |Remaining(db, PutLoan(tx, l, None))| < |Remaining(db, tx)|
  {
    hide IsVictim;
    assert Remaining(db, PutLoan(tx, l, None)) == Remaining(db, tx) - {l};
  }

  lemma {:induction false} CascadeReaches(s0: State, s: State, t: TxId) returns (s': State)
    requires Sole(s0, s, t) && t in s.txs && s.txs[t].pc.Cascade?
    ensures Sole(s0, s', t) && s'.db == s.db && s'.born == s.born && s'.txs.Keys == s.txs.Keys
    ensures t in s'.txs && s'.txs[t].pc.Ready? && s'.txs[t].req == s.txs[t].req
    decreases |Remaining(s.db, s.txs[t])|
  {
    hide Sole, IsVictim, LockedByOther;
    var tx := s.txs[t];
    if l :| l in Remaining(s.db, tx) {
      NobodyElseLocks(s0, s, t, LoanRow(l));
      var s1 := OwnAction(s0, s, t, CascadeTo(t, l));
      RemainingShrinks(s.db, tx, l);
      s' := CascadeReaches(s0, s1, t);
    } else {
      forall l | l in s.db.loans && IsVictim(s.db, tx.req, l) ensures l in tx.writes.loans {
        assert l !in Remaining(s.db, tx);
      }
      s' := OwnAction(s0, s, t, EndCascade(t));
    }
  }

  /** The one statement of an administrative request raises exactly when the change is not enabled,
      with the error of the served request. */
  lemma AdminStatement(db: Db, op: Op, now: int, id: LoanId)
    requires !op.IssueOp? && !op.ReturnOp?
    ensures var tx := Step(db, NewTx(AdminRequest(op)), now, id);
            && tx.req == AdminRequest(op)
            && (Enabled(db, op) ==> tx.pc.Ready? || tx.pc.Cascade?)
            && (!Enabled(db, op) ==> tx.pc == Aborted(ServeAdmin(db, op).1.error))
    ensures HasStatement(NewTx(AdminRequest(op))) && !AdminRequest(op).Issue?
  {
  }

  lemma OpOfAdmin(tx: Tx, op: Op)
    requires !op.IssueOp? && !op.ReturnOp? && tx.req == AdminRequest(op)
    ensures OpOf(tx) == op
  {
  }

  // ---- Whole calls ----

  lemma AdminReaches(s0: State, s: State, op: Op) returns (s': State, t: TxId)
    requires Reaches(s0, s) && Inv(s) && Quiet(s) && !op.IssueOp? && !op.ReturnOp?
    ensures Reaches(s0, s') && Inv(s') && Quiet(s') && s'.born == s.born
    ensures t !in s.txs && t in s'.txs && s'.txs[t].req == AdminRequest(op)
    ensures s'.db == ServeAdmin(s.db, op).0
    ensures s'.txs[t].pc == match ServeAdmin(s.db, op).1 { case Success(_) => Committed case Failure(e) => Aborted(e) }
  {
    hide Reaches, Inv, Quiet, Sole, Step, Apply, Enabled, OpOf, Install, AdminRequest;
    var s1, s2;
    t, s1 := Starts(s0, s, AdminRequest(op));
    var id := FreshNat(s.born.Keys);
    AdminStatement(s.db, op, 0, id);
    s2 := StatementAlone(s0, s1, t, 0, id);
    if !Enabled(s.db, op) {
      SoleEnds(s0, s2, t);
      s' := s2;
    } else {
      if s2.txs[t].pc.Cascade? { s2 := CascadeReaches(s0, s2, t); }
      OpOfAdmin(s2.txs[t], op);
      s' := CommitAlone(s0, s2, t);
    }
  }

  /** A transaction that has run its statements alone commits, unless it has raised. */
  lemma StepsEnd(s0: State, s: State, t: TxId) returns (s': State)
    requires Sole(s0, s, t) && t in s.txs && (s.txs[t].pc.Ready? || s.txs[t].pc.Aborted?)
    ensures Reaches(s0, s') && Inv(s') && Quiet(s') && s'.born == s.born && t in s'.txs && s'.txs[t].req == s.txs[t].req
    ensures s.txs[t].pc.Ready? ==> s'.db == Install(s.db, s.txs[t].writes) && s'.txs[t].pc == Committed
    ensures s.txs[t].pc.Aborted? ==> s' == s
  {
    hide Reaches, Inv, Quiet, Sole, Install;
    if s.txs[t].pc.Ready? {
      s' := CommitAlone(s0, s, t);
    } else {
      SoleEnds(s0, s, t);
      s' := s;
    }
  }

  lemma IssueReaches(s0: State, s: State, u: UserId, b: BookId, start: int, now: int, id: LoanId)
      returns (s': State, t: TxId)
    requires Reaches(s0, s) && Inv(s) && Quiet(s) && id !in s.born
    ensures Reaches(s0, s') && Inv(s') && Quiet(s') && s'.born.Keys <= s.born.Keys + {id}
    ensures t !in s.txs && t in s'.txs && s'.txs[t].req == Issue(u, b)
    ensures var (db', reply) := ServeIssue(s.db, u, b, start, now, id);
            s'.db == db' && s'.txs[t].pc == match reply { case Success(_) => Committed case Failure(e) => Aborted(e) }
  {
    assert Stocked(s.db) && BornCovers(s.db, s.born);
    hide Reaches, Inv, Quiet, Sole, StepsAlone, ServeIssue, Install, Valid, Stocked;
    var s1, s2;
    t, s1 := Starts(s0, s, Issue(u, b));
    IssueAlone(s.db, u, b, start, now, id);
    s2 := StepsReach(s0, s1, t, 6, start, now, id);
    s' := StepsEnd(s0, s2, t);
  }

  lemma ReturnReaches(s0: State, s: State, l: LoanId, now: int) returns (s': State, t: TxId)
    requires Reaches(s0, s) && Inv(s) && Quiet(s)
    ensures Reaches(s0, s') && Inv(s') && Quiet(s') && s'.born == s.born
    ensures t !in s.txs && t in s'.txs && s'.txs[t].req == Return(l)
    ensures var (db', reply) := ServeReturn(s.db, l, now);
            s'.db == db' && s'.txs[t].pc == match reply { case Success(_) => Committed case Failure(e) => Aborted(e) }
  {
    hide Reaches, Inv, Quiet, Sole, StepsAlone, ServeReturn, Install;
    var s1, s2;
    t, s1 := Starts(s0, s, Return(l));
    var id := FreshNat(s.born.Keys);
    ReturnAlone(s.db, l, now, id);
    s2 := StepsReach(s0, s1, t, 4, now, now, id);
    s' := StepsEnd(s0, s2, t);
  }

  /** From any quiet state the machine can serve a call as SerialRuns serves it: same tables, same
      error, and no transaction left open. */
  lemma CallReaches(s0: State, s: State, c: Call) returns (s': State, t: TxId)
    requires Reaches(s0, s) && Inv(s) && Quiet(s) && WellFormed(c) && (c.IssueCall? ==> c.id !in s.born)
    ensures Reaches(s0, s') && Inv(s') && Quiet(s')
    ensures s'.born.Keys <= s.born.Keys + if c.IssueCall? then {c.id} else {}
    ensures t !in s.txs && t in s'.txs && s'.txs[t].req == RequestOf(c)
    ensures s'.db == Serve(s.db, c)
    ensures s'.txs[t].pc == match Outcome(s.db, c) { case None => Committed case Some(e) => Aborted(e) }
  {
    hide Reaches, Inv, Quiet, ServeIssue, ServeReturn, ServeAdmin, AdminRequest;
    match c
    case IssueCall(u, b, start, now, id) => s', t := IssueReaches(s0, s, u, b, start, now, id);
    case ReturnCall(l, now) => s', t := ReturnReaches(s0, s, l, now);
    case AdminCall(op) => s', t := AdminReaches(s0, s, op);
  }

  /** Loan identifiers are drawn afresh. */
  predicate FreshCalls(calls: seq<Call>, born: set<LoanId>) {
    forall i :: 0 <= i < |calls| && calls[i].IssueCall? ==>
      calls[i].id !in born && forall j :: 0 <= j < i && calls[j].IssueCall? ==> calls[j].id != calls[i].id
  }

  /** Every serial run of well-formed calls is a run of the machine, and ends with the same tables. */
  lemma {:induction false} CallsReach(s0: State, s: State, calls: seq<Call>) returns (s': State)
    requires Reaches(s0, s) && Inv(s) && Quiet(s) && WellFormedAll(calls) && FreshCalls(calls, s.born.Keys)
    ensures Reaches(s0, s') && Inv(s') && Quiet(s') && s'.db == ServeAll(s.db, calls)
    decreases |calls|
  {
    hide Reaches, Inv, Quiet, Serve, Outcome, RequestOf;
    if calls == [] {
      s' := s;
    } else {
      var s1, t := CallReaches(s0, s, calls[0]);
      forall i | 0 <= i < |calls[1..]| && calls[1..][i].IssueCall?
        ensures calls[1..][i].id !in s1.born.Keys
                && forall j :: 0 <= j < i && calls[1..][j].IssueCall? ==> calls[1..][j].id != calls[1..][i].id
      {
        assert calls[1..][i] == calls[i + 1];
        forall j | 0 <= j < i && calls[1..][j].IssueCall? ensures calls[1..][j].id != calls[1..][i].id {
          assert calls[1..][j] == calls[j + 1];
        }
      }
      s' := CallsReach(s0, s1, calls[1..]);
    }
  }

  lemma SerialRunsAreInterleavings(s: State, calls: seq<Call>)
    requires Init(s) && WellFormedAll(calls) && FreshCalls(calls, s.born.Keys)
    ensures exists s' :: Reaches(s, s') && Quiet(s') && s'.db == ServeAll(s.db, calls)
  {
    ReachesItself(s);
    var s' := CallsReach(s, s, calls);
  }
}
