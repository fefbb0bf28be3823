/** What every serial history of committed changes does to the counters, and, through
    serializability, what every interleaving does.
 */
module Histories {
  import opened Common
  import opened Tables
  import opened Transactions
  import opened CommitLog
  import opened Serializability

  /** A history that runs has prefixes that run. */
  lemma {:induction false} PrefixRuns(db: Db, log: seq<Op>, n: nat)
    requires Replay(db, log).Some? && n <= |log|
    ensures Replay(db, log[..n]).Some?
    decreases |log|
  {
    if n < |log| {
      PrefixRuns(db, log[..|log| - 1], n);
      assert log[..|log| - 1][..n] == log[..n];
    } else {
      assert log[..n] == log;
    }
  }

  lemma {:induction false} ReplayValid(db: Db, log: seq<Op>)
    requires Valid(db) && Replay(db, log).Some?
    ensures Valid(Replay(db, log).value)
  {
    if log != [] {
      ReplayValid(db, log[..|log| - 1]);
      ApplyKeepsValid(Replay(db, log[..|log| - 1]).value, log[|log| - 1]);
    }
  }

  // ---- books_on_hand against the open loans ----

  function Excess(db: Db, u: UserId): int {
    if u in db.users then db.users[u] - |OpenOfUser(db, u)| else 0
  }

  /** The loans of a user that deleted books took with them, since the user was created. */
  function LostLoans(db: Db, log: seq<Op>, u: UserId): int
    requires Replay(db, log).Some?
  {
    if log == [] then Excess(db, u)
    else
      var earlier := LostLoans(db, log[..|log| - 1], u);
      match log[|log| - 1]
      case CreateUserOp(v) => if u == v then 0 else earlier
      case DeleteBookOp(b) => earlier + |OpenOf(Replay(db, log[..|log| - 1]).value, u, b)|
      case _ => earlier
  }

  /** Only an issue and a return move the counter of a user that exists before and after. */
  lemma CounterAfter(db: Db, op: Op, u: UserId)
    requires Enabled(db, op) && u in Apply(db, op).users
    ensures u !in db.users ==> op == CreateUserOp(u)
    ensures op == CreateUserOp(u) ==> u !in db.users && Apply(db, op).users[u] == 0
    ensures u in db.users ==>
              Apply(db, op).users[u] == db.users[u] +
                match op {
                  case IssueOp(v, _, _, _, _) => if u == v then 1 else 0
                  case ReturnOp(l, _) => if db.loans[l].user == u then -1 else 0
                  case _ => 0
                }
    ensures op != DeleteUserOp(u)
  {
  }

  lemma ExcessAfter(db: Db, op: Op, u: UserId)
    requires Valid(db) && Enabled(db, op) && u in Apply(db, op).users
    ensures Excess(Apply(db, op), u) ==
            match op {
              case CreateUserOp(v) => if u == v then 0 else Excess(db, u)
              case DeleteBookOp(b) => Excess(db, u) + |OpenOf(db, u, b)|
              case _ => Excess(db, u)
            }
  {
    OpenOfUserAfter(db, op, u);
    CounterAfter(db, op, u);
    NoLoansWithoutEnds(db, u, 0);
    hide OpenOfUser, OpenOf, Apply, Enabled, Valid;
    if op.DeleteBookOp? { SubsetSize(OpenOf(db, u, op.book), OpenOfUser(db, u)); }
  }

  /** The counter exceeds the open loans by exactly the loans lost to deleted books. */
  lemma {:induction false} CounterExplained(db: Db, log: seq<Op>, u: UserId)
    requires Valid(db) && Replay(db, log).Some? && u in Replay(db, log).value.users
    ensures Excess(Replay(db, log).value, u) == LostLoans(db, log, u)
  {
    if log != [] {
      var before := Replay(db, log[..|log| - 1]).value;
      var op := log[|log| - 1];
      ReplayValid(db, log[..|log| - 1]);
      ExcessAfter(before, op, u);
      if u in before.users { CounterExplained(db, log[..|log| - 1], u); }
    }
  }

  /** No deleted book had an open loan of this user, since the user was created. */
  predicate NothingLost(db: Db, log: seq<Op>, u: UserId)
    requires Replay(db, log).Some?
  {
    if log == [] then Excess(db, u) == 0
    else
      match log[|log| - 1]
      case CreateUserOp(v) => u == v || NothingLost(db, log[..|log| - 1], u)
      case DeleteBookOp(b) =>
        NothingLost(db, log[..|log| - 1], u) && OpenOf(Replay(db, log[..|log| - 1]).value, u, b) == {}
      case _ => NothingLost(db, log[..|log| - 1], u)
  }

  lemma {:induction false} LossAccumulates(db: Db, log: seq<Op>, u: UserId)
    requires Valid(db) && Replay(db, log).Some?
    ensures LostLoans(db, log, u) >= 0
    ensures LostLoans(db, log, u) == 0 <==> NothingLost(db, log, u)
  {
    if log != [] {
      LossAccumulates(db, log[..|log| - 1], u);
      match log[|log| - 1]
      case DeleteBookOp(b) =>
        var lost := OpenOf(Replay(db, log[..|log| - 1]).value, u, b);
        assert |lost| == 0 <==> lost == {};
      case _ =>
    }
  }

  // ---- Copies of a book ----

  function Stock(db: Db, b: BookId): int {
    if b in db.books then db.books[b].available + |OpenOfBook(db, b)| else 0
  }

  /** The stock as the catalogue changes alone would have it: a creation and an update set it,
      the deletion of a user takes away the copies this user still had. */
  function Ledger(db: Db, log: seq<Op>, b: BookId): int
    requires Replay(db, log).Some?
  {
    if log == [] then Stock(db, b)
    else
      var earlier := Ledger(db, log[..|log| - 1], b);
      var before := Replay(db, log[..|log| - 1]).value;
      match log[|log| - 1]
      case CreateBookOp(c, _, copies) => if b == c then copies else earlier
      case UpdateBookOp(c, _, copies) =>
        if b == c && copies.Some? then copies.value + |OpenOfBook(before, b)| else earlier
      case DeleteUserOp(u) => earlier - |OpenOf(before, u, b)|
      case _ => earlier
  }

  lemma StockAfter(db: Db, op: Op, b: BookId)
    requires Valid(db) && Enabled(db, op) && b in Apply(db, op).books
    ensures Stock(Apply(db, op), b) ==
            match op {
              case CreateBookOp(c, _, copies) => if b == c then copies else Stock(db, b)
              case UpdateBookOp(c, _, copies) =>
                if b == c && copies.Some? then copies.value + |OpenOfBook(db, b)| else Stock(db, b)
              case DeleteUserOp(u) => Stock(db, b) - |OpenOf(db, u, b)|
              case _ => Stock(db, b)
            }
  {
    hide OpenOfBook, OpenOf, HasOpen, Counted, Stocked, OneOpenEach;
    OpenOfBookAfter(db, op, b);
    NoLoansWithoutEnds(db, 0, b);
    match op
    case DeleteUserOp(u) => SubsetSize(OpenOf(db, u, b), OpenOfBook(db, b));
    case _ =>
  }

  /** Conservation of copies: available plus lent is the ledger's stock. */
  lemma {:induction false} CopiesConserved(db: Db, log: seq<Op>, b: BookId)
    requires Valid(db) && Replay(db, log).Some? && b in Replay(db, log).value.books
    ensures Stock(Replay(db, log).value, b) == Ledger(db, log, b)
  {
    if log != [] {
      var before := Replay(db, log[..|log| - 1]).value;
      ReplayValid(db, log[..|log| - 1]);
      StockAfter(before, log[|log| - 1], b);
      if b in before.books { CopiesConserved(db, log[..|log| - 1], b); }
    }
  }

  // ---- Each loan is returned at most once ----

  /** Loan identifiers are drawn afresh: none is inserted twice, none was there at the start. */
  ghost predicate FreshIds(db: Db, log: seq<Op>) {
    forall i :: 0 <= i < |log| && log[i].IssueOp? ==>
      log[i].loan !in db.loans
      && forall j :: 0 <= j < i && log[j].IssueOp? ==> log[j].loan != log[i].loan
  }

  lemma {:induction false} LoanHasOrigin(db: Db, log: seq<Op>, l: LoanId)
    requires Replay(db, log).Some? && l in Replay(db, log).value.loans
    ensures l in db.loans || exists i :: 0 <= i < |log| && log[i].IssueOp? && log[i].loan == l
  {
    if log != [] {
      var n := |log| - 1;
      if log[n].IssueOp? && log[n].loan == l {
      } else {
        LoanHasOrigin(db, log[..n], l);
        if l !in db.loans {
          var i :| 0 <= i < n && log[..n][i].IssueOp? && log[..n][i].loan == l;
          assert log[i].IssueOp? && log[i].loan == l;
        }
      }
    }
  }

  /** One change leaves a closed loan as it is, or deletes it; once gone it comes back only by an
      issue that draws its identifier. */
  lemma ClosedStays(db: Db, op: Op, loan: Loan, l: LoanId)
    requires Enabled(db, op) && loan.returnedAt.Some? && (op.IssueOp? ==> op.loan != l)
    requires l in db.loans ==> db.loans[l] == loan
    ensures l in Apply(db, op).loans ==> Apply(db, op).loans[l] == loan
  {
  }

  /** A loan that is there at some point was there at the start or issued before that point. */
  lemma NotIssuedAgain(db: Db, log: seq<Op>, n: nat, k: nat, l: LoanId)
    requires Replay(db, log).Some? && FreshIds(db, log) && n <= k < |log| && log[k].IssueOp?
    requires Replay(db, log[..n]).Some? && l in Replay(db, log[..n]).value.loans
    ensures log[k].loan != l
  {
    LoanHasOrigin(db, log[..n], l);
    if l !in db.loans {
      var i :| 0 <= i < n && log[..n][i].IssueOp? && log[..n][i].loan == l;
      assert log[i].IssueOp? && log[i].loan == l;
    }
  }

  /** A loan that is closed at any point of a history, by a return in it or before it, is from then
      on the same row or deleted, and never comes back. */
  lemma {:induction false} ClosedForGood(db: Db, log: seq<Op>, n: nat, end: nat, l: LoanId)
    requires Replay(db, log).Some? && FreshIds(db, log) && n <= end <= |log|
    requires Replay(db, log[..n]).Some? && l in Replay(db, log[..n]).value.loans
    requires Replay(db, log[..n]).value.loans[l].returnedAt.Some?
    ensures Replay(db, log[..end]).Some?
    ensures l in Replay(db, log[..end]).value.loans ==>
              Replay(db, log[..end]).value.loans[l] == Replay(db, log[..n]).value.loans[l]
    decreases end
  {
    hide Apply, Enabled, FreshIds;
    PrefixRuns(db, log, end);
    if n < end {
      ClosedForGood(db, log, n, end - 1, l);
      assert log[..end][..end - 1] == log[..end - 1];
      if log[end - 1].IssueOp? { NotIssuedAgain(db, log, n, end - 1, l); }
      ClosedStays(Replay(db, log[..end - 1]).value, log[end - 1], Replay(db, log[..n]).value.loans[l], l);
    }
  }

  lemma ReturnCloses(db: Db, log: seq<Op>, i: nat)
    requires Replay(db, log).Some? && i < |log| && log[i].ReturnOp?
    ensures Replay(db, log[..i]).Some? && Enabled(Replay(db, log[..i]).value, log[i])
    ensures var after := Replay(db, log[..i + 1]);
            after.Some? && log[i].loan in after.value.loans
            && after.value.loans[log[i].loan].returnedAt == Some(log[i].at)
  {
    PrefixRuns(db, log, i + 1);
    assert log[..i + 1][..i] == log[..i];
  }

  lemma ReturnedOnce(db: Db, log: seq<Op>, i: nat, j: nat)
    requires Replay(db, log).Some? && FreshIds(db, log)
    requires i < j < |log| && log[i].ReturnOp? && log[j].ReturnOp?
    ensures log[i].loan != log[j].loan
  {
    ReturnCloses(db, log, i);
    ReturnCloses(db, log, j);
    ClosedForGood(db, log, i + 1, j, log[i].loan);
  }

  // ---- Interleavings ----

  predicate DrewId(tx: Tx) {
    tx.req.Issue? && (tx.pc.Ready? || tx.pc.Committed?)
  }

  ghost predicate IdsDistinct(s0: State, s: State) {
    && (forall l :: l in s0.born ==> l in s.born)
    && (forall t :: t in s.txs && s.txs[t].pc.Cascade? ==> !s.txs[t].req.Issue?)
    && (forall t :: t in s.txs && DrewId(s.txs[t]) ==> s.txs[t].loanId in s.born && s.txs[t].loanId !in s0.born)
    && (forall t, t' :: t in s.txs && t' in s.txs && t != t' && DrewId(s.txs[t]) && DrewId(s.txs[t'])
          ==> s.txs[t].loanId != s.txs[t'].loanId)
  }

  lemma StepDrawsId(db: Db, tx: Tx, now: int, id: LoanId)
    requires HasStatement(tx)
    ensures Step(db, tx, now, id).req == tx.req
    ensures DrewId(Step(db, tx, now, id)) ==> Step(db, tx, now, id).pc.Ready? && Step(db, tx, now, id).loanId == id
    ensures Step(db, tx, now, id).pc.Cascade? ==> !tx.req.Issue?
  {
  }

  lemma DoKeepsIdsDistinct(s0: State, s: State, a: Action)
    requires Can(s, a) && IdsDistinct(s0, s)
    ensures IdsDistinct(s0, Do(s, a))
  {
    hide Step, Install, OpOf, LockedByOther, IsVictim, Needed, NewLoan;
    if a.Statement? { StepDrawsId(s.db, s.txs[a.t], a.now, a.id); }
  }

  lemma {:induction false} RunKeepsIdsDistinct(s0: State, s: State, actions: seq<Action>)
    requires CanRun(s, actions) && IdsDistinct(s0, s)
    ensures IdsDistinct(s0, Run(s, actions))
    decreases |actions|
  {
    if actions != [] {
      DoKeepsIdsDistinct(s0, s, actions[0]);
      RunKeepsIdsDistinct(s0, Do(s, actions[0]), actions[1..]);
    }
  }

  lemma StartsDistinct(s: State)
    requires Init(s)
    ensures IdsDistinct(s, s)
  {
  }

  lemma LogHasFreshIds(s0: State, s: State)
    requires Init(s0) && IdsDistinct(s0, s) && Logged(s)
    ensures FreshIds(s0.db, Ops(s.log))
  {
    hide Valid;
    var ops := Ops(s.log);
    forall i | 0 <= i < |ops| && ops[i].IssueOp?
      ensures ops[i].loan !in s0.db.loans && forall j :: 0 <= j < i && ops[j].IssueOp? ==> ops[j].loan != ops[i].loan
    {
      assert DrewId(s.txs[s.log[i].tx]);
      forall j | 0 <= j < i && ops[j].IssueOp? ensures ops[j].loan != ops[i].loan {
        assert DrewId(s.txs[s.log[j].tx]);
      }
    }
  }

  /** The commit log of an interleaving is a serial history with fresh identifiers. */
  lemma InterleavingIsHistory(s: State, actions: seq<Action>)
    requires Init(s) && CanRun(s, actions)
    ensures var end := Run(s, actions);
            Replay(s.db, Ops(end.log)) == Some(end.db) && FreshIds(s.db, Ops(end.log)) && Logged(end) && Valid(end.db)
  {
    hide Valid, Inv, Logged, IdsDistinct;
    Serializable(s, actions);
    StartsDistinct(s);
    RunKeepsIdsDistinct(s, s, actions);
    LogHasFreshIds(s, Run(s, actions));
  }

  /** In every state an interleaving commits: the open loans of a user are at most the counter,
      the counter at most the limit, and the two agree exactly when no deleted book took an open
      loan of this user away; the partial unique index holds. */
  lemma CountersInInterleavings(s: State, actions: seq<Action>, u: UserId)
    requires Init(s) && CanRun(s, actions) && u in Run(s, actions).db.users
    ensures var end := Run(s, actions);
            && |OpenOfUser(end.db, u)| <= end.db.users[u] <= MAX_BOOKS_ON_HAND
            && OneOpenEach(end.db)
            && Replay(s.db, Ops(end.log)).Some?
            && (end.db.users[u] == |OpenOfUser(end.db, u)| <==> NothingLost(s.db, Ops(end.log), u))
  {
    InterleavingIsHistory(s, actions);
    CounterExplained(s.db, Ops(Run(s, actions).log), u);
    LossAccumulates(s.db, Ops(Run(s, actions).log), u);
  }

  lemma {:induction false} NoBookDeletedNothingLost(db: Db, log: seq<Op>, u: UserId)
    requires Replay(db, log).Some? && Excess(db, u) == 0
    requires forall i :: 0 <= i < |log| ==> !log[i].DeleteBookOp?
    ensures NothingLost(db, log, u)
  {
    if log != [] { NoBookDeletedNothingLost(db, log[..|log| - 1], u); }
  }

  /** Issues and returns alone, however interleaved, keep available plus lent of every book, and
      nothing ever drives a shelf below zero. */
  lemma CopiesInInterleavings(s: State, actions: seq<Action>, b: BookId)
    requires Init(s) && CanRun(s, actions) && b in Run(s, actions).db.books
    ensures var end := Run(s, actions);
            && Replay(s.db, Ops(end.log)).Some?
            && Stock(end.db, b) == Ledger(s.db, Ops(end.log), b)
            && 0 <= end.db.books[b].available
  {
    InterleavingIsHistory(s, actions);
    CopiesConserved(s.db, Ops(Run(s, actions).log), b);
  }

  // ---- What a return can raise ----

  /** Everything but a missing book: the updates after the first one never fail. */
  predicate MayRaise(req: Request, error: Error) {
    req.Return? ==> error in {LoanNotFound, AlreadyReturned, ConcurrencyConflict, IntegrityViolation, Cancelled}
  }

  ghost predicate ErrorsExpected(s: State) {
    forall t :: t in s.txs && s.txs[t].pc.Aborted? ==> MayRaise(s.txs[t].req, s.txs[t].pc.error)
  }

  lemma StepRaisesExpected(db: Db, born: map<LoanId, Loan>, tx: Tx, now: int, id: LoanId)
    requires Valid(db) && TxOk(db, born, tx) && HasStatement(tx)
    ensures Step(db, tx, now, id).req == tx.req
    ensures Step(db, tx, now, id).pc.Aborted? ==> MayRaise(tx.req, Step(db, tx, now, id).pc.error)
  {
  }

  lemma DoKeepsErrors(s: State, a: Action)
    requires Inv(s) && Can(s, a) && ErrorsExpected(s)
    ensures ErrorsExpected(Do(s, a))
  {
    hide Valid, TxOk, Step, Install, OpOf, LockedByOther, IsVictim, Needed, NewLoan;
    if a.Statement? { StepRaisesExpected(s.db, s.born, s.txs[a.t], a.now, a.id); }
  }

  lemma {:induction false} RunKeepsErrors(s: State, actions: seq<Action>)
    requires Inv(s) && CanRun(s, actions) && ErrorsExpected(s)
    ensures ErrorsExpected(Run(s, actions))
    decreases |actions|
  {
    hide Inv, ErrorsExpected, Can, Do;
    if actions != [] {
      DoKeepsInv(s, actions[0]);
      DoKeepsErrors(s, actions[0]);
      RunKeepsErrors(Do(s, actions[0]), actions[1..]);
    }
  }

  /** In every interleaving, with deletions of users and books included: once a return has marked
      its loan, the loan stays open for all others until it commits, its book is there to give the
      copy back to, and the guard of the counter's decrement holds. */
  lemma ReturnsInInterleavings(s: State, actions: seq<Action>, t: TxId)
    requires Init(s) && CanRun(s, actions) && t in Run(s, actions).txs && Run(s, actions).txs[t].req.Return?
    ensures var end := Run(s, actions);
            var tx := end.txs[t];
            && (tx.pc.GiveBack? ==> IsOpen(end.db, tx.req.loan) && end.db.loans[tx.req.loan].book in end.db.books)
            && (tx.pc.DecrementUser? ==>
                  IsOpen(end.db, tx.req.loan) && CanDecrement(end.db, end.db.loans[tx.req.loan].user))
            && (tx.pc.Aborted? ==> MayRaise(tx.req, tx.pc.error))
  {
    hide Valid, IssueOk, AdminOk;
    Serializable(s, actions);
    RunKeepsErrors(s, actions);
    var end := Run(s, actions);
    ReturnNeverStumbles(end.db, end.born, end.txs[t]);
  }

  /** Of any number of overlapping returns of one loan, at most one commits. */
  lemma OverlappingReturns(s: State, actions: seq<Action>, t: TxId, t': TxId)
    requires Init(s) && CanRun(s, actions)
    requires var end := Run(s, actions);
             t in end.txs && t' in end.txs && t != t' && end.txs[t].pc.Committed? && end.txs[t'].pc.Committed?
             && end.txs[t].req.Return? && end.txs[t'].req.Return?
    ensures Run(s, actions).txs[t].req.loan != Run(s, actions).txs[t'].req.loan
  {
    hide Init, CanRun, Run, FreshIds, Valid, Replay;
    var end := Run(s, actions);
    InterleavingIsHistory(s, actions);
    assert t in CommittedOps(end.txs) && t' in CommittedOps(end.txs);
    var i :| 0 <= i < |end.log| && end.log[i].tx == t;
    var j :| 0 <= j < |end.log| && end.log[j].tx == t';
    var ops := Ops(end.log);
    assert ops[i] == ReturnOp(end.txs[t].req.loan, end.txs[t].at);
    assert ops[j] == ReturnOp(end.txs[t'].req.loan, end.txs[t'].at);
    hide Lists, CommittedOps, OpOf;
    if i < j { ReturnedOnce(s.db, ops, i, j); } else { ReturnedOnce(s.db, ops, j, i); }
  }

  /** A committed return changes its own loan, one copy of that loan's book and one unit of that
      loan's user, and nothing else; no other change closes a loan, and none reopens one. */
  lemma ReturnTimeWrittenOnce(db: Db, op: Op, l: LoanId)
    requires Enabled(db, op) && l in db.loans && l in Apply(db, op).loans
    ensures var after := Apply(db, op);
            && (db.loans[l].returnedAt.Some? ==> after.loans[l] == db.loans[l])
            && (db.loans[l].returnedAt.None? ==>
                  (after.loans[l].returnedAt.Some? <==> op.ReturnOp? && op.loan == l))
    ensures op.ReturnOp? && op.loan == l ==>
              var after, loan := Apply(db, op), db.loans[l];
              && after.users == db.users[loan.user := db.users[loan.user] - 1]
              && after.books.Keys == db.books.Keys
              && (forall b :: b in db.books ==>
                    after.books[b] == if b == loan.book then OneMore(db.books[b]) else db.books[b])
              && after.loans == db.loans[l := loan.(returnedAt := Some(op.at))]
  {
  }

  /** This loan is closed, or gone with nobody about to insert its identifier again. */
  ghost predicate Sealed(s: State, l: LoanId, loan: Loan) {
    && loan.returnedAt.Some? && l in s.born && (l in s.db.loans ==> s.db.loans[l] == loan)
    && forall t :: t in s.txs && s.txs[t].req.Issue? && s.txs[t].pc.Ready? ==> s.txs[t].loanId != l
  }

  lemma ClosedIsSealed(s: State, l: LoanId)
    requires Inv(s) && l in s.db.loans && s.db.loans[l].returnedAt.Some?
    ensures Sealed(s, l, s.db.loans[l])
  {
    hide Valid, ReturnOk, AdminOk;
    assert forall t :: t in s.txs && s.txs[t].req.Issue? && s.txs[t].pc.Ready? ==> Enabled(s.db, OpOf(s.txs[t]));
  }

  lemma OnlyDeletionsCascade(s: State, t: TxId)
    requires Inv(s) && t in s.txs && s.txs[t].pc.Cascade?
    ensures s.txs[t].req.DeleteUser? || s.txs[t].req.DeleteBook?
  {
    assert TxOk(s.db, s.born, s.txs[t]);
  }

  lemma DoKeepsSealed(s: State, a: Action, l: LoanId, loan: Loan)
    requires Inv(s) && Can(s, a) && Sealed(s, l, loan)
    ensures Sealed(Do(s, a), l, loan)
  {
    hide Inv, Step, Install, LockedByOther, IsVictim, Needed, NewLoan, Enabled, Apply;
    if a.EndCascade? { OnlyDeletionsCascade(s, a.t); }
    if a.Statement? { StepDrawsId(s.db, s.txs[a.t], a.now, a.id); }
    if a.Commit? {
      CommitKeepsInv(s, a.t);
      ClosedStays(s.db, OpOf(s.txs[a.t]), loan, l);
    }
  }

  lemma {:induction false} RunKeepsSealed(s: State, actions: seq<Action>, l: LoanId, loan: Loan)
    requires Inv(s) && CanRun(s, actions) && Sealed(s, l, loan)
    ensures Sealed(Run(s, actions), l, loan)
    decreases |actions|
  {
    hide Inv, Sealed, Can, Do;
    if actions != [] {
      DoKeepsInv(s, actions[0]);
      DoKeepsSealed(s, actions[0], l, loan);
      RunKeepsSealed(Do(s, actions[0]), actions[1..], l, loan);
    }
  }

  /** In every interleaving, from any state it passes through on: a closed loan keeps its return
      time, and every other column, or is deleted for good. */
  lemma ClosedForGoodInInterleavings(s0: State, before: seq<Action>, actions: seq<Action>, l: LoanId)
    requires Init(s0) && CanRun(s0, before) && CanRun(Run(s0, before), actions)
    requires l in Run(s0, before).db.loans && Run(s0, before).db.loans[l].returnedAt.Some?
    ensures var s, end := Run(s0, before), Run(Run(s0, before), actions);
            l in end.db.loans ==> end.db.loans[l] == s.db.loans[l]
  {
    hide Inv, Can, Do, Init;
    var s := Run(s0, before);
    Serializable(s0, before);
    ClosedIsSealed(s, l);
    RunKeepsSealed(s, actions, l, s.db.loans[l]);
  }

  /** While no book is deleted the counter is the number of open loans. */
  lemma CounterExactWithoutBookDeletion(s: State, actions: seq<Action>, u: UserId)
    requires Init(s) && CanRun(s, actions) && Excess(s.db, u) == 0
    requires var end := Run(s, actions);
             u in end.db.users && forall t :: t in end.txs && end.txs[t].req.DeleteBook? ==> !end.txs[t].pc.Committed?
    ensures Run(s, actions).db.users[u] == |OpenOfUser(Run(s, actions).db, u)|
  {
    var end := Run(s, actions);
    InterleavingIsHistory(s, actions);
    CountersInInterleavings(s, actions, u);
    forall i | 0 <= i < |Ops(end.log)| ensures !Ops(end.log)[i].DeleteBookOp? {
      assert s.txs == map[] && end.log[i].tx in end.txs;
    }
    NoBookDeletedNothingLost(s.db, Ops(end.log), u);
  }
}
