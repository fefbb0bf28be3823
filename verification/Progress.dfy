/** Which transactions can wait for each other in a circle.

    Issues lock user, book, index entry, loan; the deletion of a user or a book locks that row, then
    its loans; returns lock loan, book, user; the other requests lock one row. As long as no two
    requests clash in these orders, waiting always points to a transaction that is further along.
 */
module Progress {
  import opened Common
  import opened Tables
  import opened Transactions
  import opened CommitLog
  import opened Serializability

  /** The rows a transaction may have to wait for now. */
  ghost predicate Wants(db: Db, tx: Tx, r: Row) {
    || (HasStatement(tx) && exists now :: r in Needed(db, tx, now))
    || (tx.pc.Cascade? && r.LoanRow? && IsVictim(db, tx.req, r.loan))
  }

  ghost predicate WaitsFor(s: State, t: TxId, t': TxId) {
    && t in s.txs && t' in s.txs && t != t'
    && exists r :: r in s.txs[t'].locks && Wants(s.db, s.txs[t], r)
  }

  function Rank(tx: Tx): nat {
    match tx.pc
    case IncrementUser => 1
    case TakeInstance => 2
    case DiagnoseBook => 4
    case InsertLoan => 3
    case MarkReturned => 1
    case GiveBack => 2
    case DecrementUser => 3
    case OneRow => 1
    case Cascade => 3
    case Ready => 4
    case _ => 0
  }

  datatype Kind = Issuing | Returning | CreatingUser | DeletingUser | CreatingBook | UpdatingBook | DeletingBook

  function KindOf(req: Request): Kind {
    match req
    case Issue(_, _) => Issuing
    case Return(_) => Returning
    case CreateUser(_) => CreatingUser
    case DeleteUser(_) => DeletingUser
    case CreateBook(_, _, _) => CreatingBook
    case UpdateBook(_, _, _) => UpdatingBook
    case DeleteBook(_) => DeletingBook
  }

  /** Two kinds of request that can take two locks in opposite orders. */
  predicate Clash(a: Kind, b: Kind) {
    || (a.Returning? && (b.Issuing? || b.DeletingUser? || b.DeletingBook?))
    || (b.Returning? && (a.Issuing? || a.DeletingUser? || a.DeletingBook?))
    || (a.DeletingUser? && b.DeletingBook?) || (a.DeletingBook? && b.DeletingUser?)
  }

  predicate SameOrder(a: Request, b: Request) {
    !Clash(KindOf(a), KindOf(b))
  }

  lemma ReturnsWaitUpwards(db: Db, born: map<LoanId, Loan>, tx: Tx, tx': Tx, r: Row)
    requires TxOk(db, born, tx) && TxOk(db, born, tx') && tx.req.Return? && tx'.req.Return?
    requires BornCovers(db, born) && Wants(db, tx, r) && r in tx'.locks
    ensures Rank(tx) < Rank(tx')
  {
  }

  lemma OthersWaitUpwards(db: Db, born: map<LoanId, Loan>, tx: Tx, tx': Tx, r: Row)
    requires TxOk(db, born, tx) && TxOk(db, born, tx') && !tx.req.Return? && !tx'.req.Return?
    requires SameOrder(tx.req, tx'.req) && tx.locks !! tx'.locks && Wants(db, tx, r) && r in tx'.locks
    ensures Rank(tx) < Rank(tx')
  {
  }

  /** A return may wait for the one row of another request, and the other way round. */
  lemma OneRowWaitsUpwards(db: Db, born: map<LoanId, Loan>, tx: Tx, tx': Tx, r: Row)
    requires TxOk(db, born, tx) && TxOk(db, born, tx') && (tx.req.Return? <==> !tx'.req.Return?)
    requires SameOrder(tx.req, tx'.req) && Wants(db, tx, r) && r in tx'.locks
    ensures Rank(tx) < Rank(tx')
  {
  }

  /** Waiting points to a transaction further along, unless the two requests clash. */
  lemma WaitingRises(s: State, t: TxId, t': TxId)
    requires Inv(s) && WaitsFor(s, t, t') && SameOrder(s.txs[t].req, s.txs[t'].req)
    ensures Rank(s.txs[t]) < Rank(s.txs[t'])
  {
    hide Wants, TxOk, Valid, Rank;
    var r :| r in s.txs[t'].locks && Wants(s.db, s.txs[t], r);
    if s.txs[t].req.Return? != s.txs[t'].req.Return? {
      OneRowWaitsUpwards(s.db, s.born, s.txs[t], s.txs[t'], r);
    } else if s.txs[t].req.Return? {
      ReturnsWaitUpwards(s.db, s.born, s.txs[t], s.txs[t'], r);
    } else {
      OthersWaitUpwards(s.db, s.born, s.txs[t], s.txs[t'], r);
    }
  }

  // ---- Wait cycles ----

  ghost predicate IsCycle(s: State, cycle: seq<TxId>) {
    && |cycle| > 0 && (forall t :: t in cycle ==> t in s.txs) && WaitsFor(s, cycle[|cycle| - 1], cycle[0])
    && forall i :: 0 <= i < |cycle| - 1 ==> WaitsFor(s, cycle[i], cycle[i + 1])
  }

  lemma {:induction false} RanksRise(s: State, cycle: seq<TxId>, i: nat)
    requires Inv(s) && IsCycle(s, cycle) && i < |cycle|
    requires forall t, t' :: t in cycle && t' in cycle ==> SameOrder(s.txs[t].req, s.txs[t'].req)
    ensures Rank(s.txs[cycle[0]]) <= Rank(s.txs[cycle[i]])
  {
    hide Inv, WaitsFor, Rank, SameOrder;
    if i > 0 {
      RanksRise(s, cycle, i - 1);
      assert WaitsFor(s, cycle[i - 1], cycle[i]);
      WaitingRises(s, cycle[i - 1], cycle[i]);
    }
  }

  /** Every wait cycle contains two requests whose kinds clash: a return with an issue or a deletion,
      or the deletion of a user with the deletion of a book. */
  lemma CycleClashes(s: State, cycle: seq<TxId>)
    requires Inv(s) && IsCycle(s, cycle)
    ensures exists t, t' :: t in cycle && t' in cycle && Clash(KindOf(s.txs[t].req), KindOf(s.txs[t'].req))
  {
    hide Inv, WaitsFor, Rank, Clash, KindOf;
    if forall t, t' :: t in cycle && t' in cycle ==> SameOrder(s.txs[t].req, s.txs[t'].req) {
      RanksRise(s, cycle, |cycle| - 1);
      WaitingRises(s, cycle[|cycle| - 1], cycle[0]);
    }
  }

  // ---- Progress ----

  lemma {:induction false} SomeoneIsFurthest(s: State, ts: set<TxId>) returns (t: TxId)
    requires ts != {} && forall t' :: t' in ts ==> t' in s.txs
    ensures t in ts && forall t' :: t' in ts ==> Rank(s.txs[t']) <= Rank(s.txs[t])
  {
    t :| t in ts;
    if ts != {t} {
      var t' := SomeoneIsFurthest(s, ts - {t});
      if Rank(s.txs[t]) < Rank(s.txs[t']) { t := t'; }
    }
  }

  /** The transaction has a next action of its own that the scheduler may run now. */
  ghost predicate CanProceed(s: State, t: TxId, now: int, id: LoanId) {
    || Can(s, Statement(t, now, id)) || Can(s, Commit(t)) || Can(s, EndCascade(t))
    || exists l :: Can(s, CascadeTo(t, l))
  }

  lemma WaitsOrProceeds(s: State, t: TxId, now: int, id: LoanId)
    requires Inv(s) && t in s.txs && !Finished(s.txs[t]) && id !in s.born
    requires forall t' :: !WaitsFor(s, t, t')
    ensures CanProceed(s, t, now, id)
  {
    hide Inv, Needed, IsVictim;
    if HasStatement(s.txs[t]) {
      forall r | r in Needed(s.db, s.txs[t], now) ensures !LockedByOther(s, t, r) {
        assert Wants(s.db, s.txs[t], r);
        forall t' | t' in s.txs && t' != t ensures r !in s.txs[t'].locks { assert !WaitsFor(s, t, t'); }
      }
      assert Can(s, Statement(t, now, id));
    } else if s.txs[t].pc.Cascade? && !Can(s, EndCascade(t)) {
      var l :| l in s.db.loans && IsVictim(s.db, s.txs[t].req, l);
      assert Wants(s.db, s.txs[t], LoanRow(l));
      forall t' | t' in s.txs && t' != t ensures LoanRow(l) !in s.txs[t'].locks { assert !WaitsFor(s, t, t'); }
      assert Can(s, CascadeTo(t, l));
    }
  }

  /** Progress. While no two unfinished requests clash, some unfinished one can run its next action. */
  lemma SomeoneProceeds(s: State, now: int, id: LoanId)
    requires Inv(s) && id !in s.born
    requires exists t :: t in s.txs && !Finished(s.txs[t])
    requires forall t, t' :: t in s.txs && t' in s.txs && !Finished(s.txs[t]) && !Finished(s.txs[t'])
               ==> SameOrder(s.txs[t].req, s.txs[t'].req)
    ensures exists t :: t in s.txs && !Finished(s.txs[t]) && CanProceed(s, t, now, id)
  {
    hide Wants, Rank, CanProceed;
    var first :| first in s.txs && !Finished(s.txs[first]);
    var unfinished := set t' | t' in s.txs && !Finished(s.txs[t']);
    assert first in unfinished;
    var t := SomeoneIsFurthest(s, unfinished);
    forall t' ensures !WaitsFor(s, t, t') {
      if WaitsFor(s, t, t') {
        HoldersUnfinished(s, t');
        WaitingRises(s, t, t');
      }
    }
    WaitsOrProceeds(s, t, now, id);
  }

  lemma HoldersUnfinished(s: State, t: TxId)
    requires Inv(s) && t in s.txs && s.txs[t].locks != {}
    ensures !Finished(s.txs[t])
  {
  }
}
