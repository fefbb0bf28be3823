/** The same requests served one at a time: each a single function of the tables.

    The statement-by-statement programs are proved against these functions twice, by LoanService
    (the imperative session) and by `IssueAlone` and `ReturnAlone` below (the interleaving machine
    when nobody else runs).
 */
module SerialRuns {
  import opened Common
  import opened Tables
  import opened Transactions
  import S = Serializability

  type Reply<+T> = Result<T, Error>

  /** A loan and the copies then left on the shelf. */
  datatype Receipt = Receipt(id: LoanId, loan: Loan, left: int)

  /** Issue a book: `start` is the clock when the request reads the date, `now` when it inserts. */
  function ServeIssue(db: Db, u: UserId, b: BookId, start: int, now: int, id: LoanId): (Db, Reply<Receipt>) {
    if HasOverdue(db, u, DayOf(start)) then (db, Failure(LoanOverdue))
    else if HasOpen(db, u, b) then (db, Failure(AlreadyBorrowingBook))
    else if u !in db.users then (db, Failure(UserNotFound))
    else if db.users[u] >= MAX_BOOKS_ON_HAND then (db, Failure(LoanLimitExceeded))
    else if b !in db.books then (db, Failure(BookNotFound))
    else if db.books[b].available <= 0 then (db, Failure(NoAvailableInstances))
    else
      var op := IssueOp(u, b, id, now, DayOf(start) + DEFAULT_LOAN_DAYS);
      if id in db.loans || DayOf(now) > op.due then (db, Failure(IntegrityViolation))
      else (Apply(db, op), Success(Receipt(id, Apply(db, op).loans[id], db.books[b].available - 1)))
  }

  /** Return a loan. A user counter that is already zero stays as it is. */
  function ServeReturn(db: Db, l: LoanId, now: int): (Db, Reply<Receipt>) {
    if l !in db.loans then (db, Failure(LoanNotFound))
    else if db.loans[l].returnedAt.Some? then (db, Failure(AlreadyReturned))
    else if now < db.loans[l].issuedAt then (db, Failure(IntegrityViolation))
    else if db.loans[l].book !in db.books then (db, Failure(BookNotFound))
    else
      var loan := db.loans[l];
      var closed := loan.(returnedAt := Some(now));
      var book := db.books[loan.book];
      (Db(if CanDecrement(db, loan.user) then db.users[loan.user := db.users[loan.user] - 1] else db.users,
          db.books[loan.book := book.(available := book.available + 1)],
          db.loans[l := closed]),
       Success(Receipt(l, closed, book.available + 1)))
  }

  /** A create, update or delete request: it happens or it raises. */
  function ServeAdmin(db: Db, op: Op): (Db, Reply<()>)
    requires !op.IssueOp? && !op.ReturnOp?
  {
    if Enabled(db, op) then (Apply(db, op), Success(()))
    else (db, Failure(match op
                      case DeleteUserOp(_) => UserNotFound
                      case UpdateBookOp(_, _, _) => BookNotFound
                      case DeleteBookOp(_) => BookNotFound
                      case _ => IntegrityViolation))
  }

  datatype Call =
    | IssueCall(user: UserId, book: BookId, start: int, now: int, id: LoanId)
    | ReturnCall(loan: LoanId, now: int)
    | AdminCall(op: Op)

  predicate WellFormed(c: Call) {
    c.AdminCall? ==> !c.op.IssueOp? && !c.op.ReturnOp?
  }

  function Serve(db: Db, c: Call): Db
    requires WellFormed(c)
  {
    match c
    case IssueCall(u, b, start, now, id) => ServeIssue(db, u, b, start, now, id).0
    case ReturnCall(l, now) => ServeReturn(db, l, now).0
    case AdminCall(op) => ServeAdmin(db, op).0
  }

  predicate WellFormedAll(calls: seq<Call>) {
    forall i :: 0 <= i < |calls| ==> WellFormed(calls[i])
  }

  function ServeAll(db: Db, calls: seq<Call>): Db
    requires WellFormedAll(calls)
    decreases |calls|
  {
    if calls == [] then db else ServeAll(Serve(db, calls[0]), calls[1..])
  }

  // ---- One request is one change, or none ----

  /** A return of valid tables raises only for a loan that is missing, closed, or issued in the
      future: its book is there and its user's counter is positive. */
  lemma ReturnIsApplied(db: Db, l: LoanId, now: int)
    requires Valid(db)
    ensures ServeReturn(db, l, now).1.Success? <==> IsOpen(db, l) && db.loans[l].issuedAt <= now
    ensures ServeReturn(db, l, now).1.Success? <==> Enabled(db, ReturnOp(l, now))
    ensures ServeReturn(db, l, now).1.Success? ==> ServeReturn(db, l, now).0 == Apply(db, ReturnOp(l, now))
    ensures ServeReturn(db, l, now).1 != Failure(BookNotFound)
  {
    if IsOpen(db, l) {
      assert l in OpenOfUser(db, db.loans[l].user);
      SubsetSize({l}, OpenOfUser(db, db.loans[l].user));
    }
  }

  lemma IssueIsApplied(db: Db, u: UserId, b: BookId, start: int, now: int, id: LoanId)
    requires Stocked(db)
    ensures var op := IssueOp(u, b, id, now, DayOf(start) + DEFAULT_LOAN_DAYS);
            var (db', reply) := ServeIssue(db, u, b, start, now, id);
            && (reply.Success? <==> Enabled(db, op) && !HasOverdue(db, u, DayOf(start)))
            && db' == if reply.Success? then Apply(db, op) else db
  {
  }

  /** On valid tables a served request is one enabled change, or leaves the tables alone. */
  lemma ServedIsApplied(db: Db, c: Call)
    requires Valid(db) && WellFormed(c)
    ensures Valid(Serve(db, c))
    ensures Serve(db, c) == db || exists op :: Enabled(db, op) && Serve(db, c) == Apply(db, op)
  {
    hide Enabled, Apply, References, Counted, OneOpenEach, Stocked;
    match c
    case IssueCall(u, b, start, now, id) =>
      IssueIsApplied(db, u, b, start, now, id);
      var op := IssueOp(u, b, id, now, DayOf(start) + DEFAULT_LOAN_DAYS);
      if Enabled(db, op) { ApplyKeepsValid(db, op); }
    case ReturnCall(l, now) =>
      ReturnIsApplied(db, l, now);
      if Enabled(db, ReturnOp(l, now)) { ApplyKeepsValid(db, ReturnOp(l, now)); }
    case AdminCall(op) =>
      if Enabled(db, op) { ApplyKeepsValid(db, op); }
  }

  lemma {:induction false} ServedStaysValid(db: Db, calls: seq<Call>)
    requires Valid(db) && WellFormedAll(calls)
    ensures Valid(ServeAll(db, calls))
    decreases |calls|
  {
    if calls != [] {
      ServedIsApplied(db, calls[0]);
      ServedStaysValid(Serve(db, calls[0]), calls[1..]);
    }
  }

  // ---- Overdue loans block new ones ----

  function LoansOf(db: Db, u: UserId): set<LoanId> {
    set l | l in db.loans && db.loans[l].user == u
  }

  predicate IsOverdue(db: Db, l: LoanId, day: int) {
    IsOpen(db, l) && db.loans[l].due < day
  }

  /** Every issue request of the run reads its date on this day or later. */
  predicate IssuesFrom(calls: seq<Call>, day: int) {
    forall i :: 0 <= i < |calls| && calls[i].IssueCall? ==> day <= DayOf(calls[i].start)
  }

  lemma OverdueBlocksOne(db: Db, c: Call, l: LoanId, day: int)
    requires WellFormed(c) && IsOverdue(db, l, day) && (c.IssueCall? ==> day <= DayOf(c.start))
    ensures LoansOf(Serve(db, c), db.loans[l].user) <= LoansOf(db, db.loans[l].user)
    ensures IsOpen(Serve(db, c), l) ==> Serve(db, c).loans[l] == db.loans[l]
  {
  }

  /** A loan that is gone or closed is never open again, unless its identifier is drawn twice. */
  lemma {:induction false} StaysClosed(db: Db, calls: seq<Call>, l: LoanId)
    requires WellFormedAll(calls) && !IsOpen(db, l)
    requires forall i :: 0 <= i < |calls| && calls[i].IssueCall? ==> calls[i].id != l
    ensures !IsOpen(ServeAll(db, calls), l)
    decreases |calls|
  {
    if calls != [] {
      assert !IsOpen(Serve(db, calls[0]), l);
      StaysClosed(Serve(db, calls[0]), calls[1..], l);
    }
  }

  /** While a user keeps an overdue loan open, no loan is added for that user, whatever else is
      served: a loan still open at the end has blocked all along. */
  lemma {:induction false} OverdueBlocks(db: Db, calls: seq<Call>, l: LoanId, day: int)
    requires WellFormedAll(calls) && IsOverdue(db, l, day) && IssuesFrom(calls, day)
    requires forall i :: 0 <= i < |calls| && calls[i].IssueCall? ==> calls[i].id != l
    requires IsOpen(ServeAll(db, calls), l)
    ensures LoansOf(ServeAll(db, calls), db.loans[l].user) <= LoansOf(db, db.loans[l].user)
    decreases |calls|
  {
    if calls != [] {
      OverdueBlocksOne(db, calls[0], l, day);
      if IsOpen(Serve(db, calls[0]), l) {
        OverdueBlocks(Serve(db, calls[0]), calls[1..], l, day);
      } else {
        StaysClosed(Serve(db, calls[0]), calls[1..], l);
      }
    }
  }

  /** Loans fall due at most fourteen days after the day they were issued. */
  ghost predicate DueDated(db: Db) {
    forall l :: l in db.loans ==> DayOf(db.loans[l].issuedAt) <= db.loans[l].due
                                  <= DayOf(db.loans[l].issuedAt) + DEFAULT_LOAN_DAYS
  }

  lemma {:induction false} ServedStaysDueDated(db: Db, calls: seq<Call>)
    requires WellFormedAll(calls) && DueDated(db)
    requires forall i :: 0 <= i < |calls| && calls[i].IssueCall? ==> calls[i].start <= calls[i].now
    ensures DueDated(ServeAll(db, calls))
    decreases |calls|
  {
    if calls != [] {
      var c := calls[0];
      assert c.IssueCall? ==> DayOf(c.start) <= DayOf(c.now);
      ServedStaysDueDated(Serve(db, c), calls[1..]);
    }
  }

  /** At every successful issue of a serial run, all open loans of the user were issued at most
      fourteen days earlier. */
  lemma IssueFindsRecentLoansOnly(db: Db, calls: seq<Call>, c: Call, l: LoanId)
    requires WellFormedAll(calls) && DueDated(db) && c.IssueCall?
    requires forall i :: 0 <= i < |calls| && calls[i].IssueCall? ==> calls[i].start <= calls[i].now
    requires var before := ServeAll(db, calls);
             ServeIssue(before, c.user, c.book, c.start, c.now, c.id).1.Success?
             && IsOpen(before, l) && before.loans[l].user == c.user
    ensures DayOf(c.start) - DEFAULT_LOAN_DAYS <= DayOf(ServeAll(db, calls).loans[l].issuedAt)
  {
    ServedStaysDueDated(db, calls);
  }

  // ---- The interleaving machine run without company ----

  /** Up to k statements of one transaction with nobody else about. The first one reads `start`. */
  function StepsAlone(db: Db, tx: Tx, k: nat, start: int, now: int, id: LoanId): Tx
    decreases k
  {
    if k == 0 || !HasStatement(tx) then tx
    else StepsAlone(db, Step(db, tx, if tx.pc.CheckOverdue? then start else now, id), k - 1, start, now, id)
  }

  lemma Unroll(db: Db, tx: Tx, k: nat, start: int, now: int, id: LoanId)
    ensures !HasStatement(tx) ==> StepsAlone(db, tx, k, start, now, id) == tx
    ensures HasStatement(tx) && k > 0 ==>
              StepsAlone(db, tx, k, start, now, id)
              == StepsAlone(db, Step(db, tx, if tx.pc.CheckOverdue? then start else now, id), k - 1, start, now, id)
  {
  }

  lemma TakeAlone(db: Db, tx: Tx, start: int, now: int, id: LoanId)
    requires Stocked(db) && id !in db.loans && tx.req.Issue? && tx.pc.TakeInstance? && tx.today == DayOf(start)
    requires CanIncrement(db, tx.req.user) && !HasOpen(db, tx.req.user, tx.req.book)
    requires !HasOverdue(db, tx.req.user, DayOf(start))
    requires tx.writes == Writes(map[tx.req.user := Some(db.users[tx.req.user] + 1)], map[], map[])
    ensures var end := StepsAlone(db, tx, 3, start, now, id);
            var (db', reply) := ServeIssue(db, tx.req.user, tx.req.book, start, now, id);
            match reply {
              case Failure(e) => end.pc == Aborted(e) && db' == db
              case Success(_) => end.pc == Ready && Install(db, end.writes) == db'
            }
  {
    hide StepsAlone, HasOverdue, HasOpen, Merge, NewTx, DayOf;
    var u, b := tx.req.user, tx.req.book;
    Unroll(db, tx, 3, start, now, id);
    var tx4 := IssueStep(db, tx, u, b, now, id);
    Unroll(db, tx4, 2, start, now, id);
    var tx5 := IssueStep(db, tx4, u, b, now, id);
    Unroll(db, tx5, 1, start, now, id);
    if tx5.pc.Ready? {
      S.MergeOne(db.users, u, db.users[u] + 1);
      S.MergeOne(db.books, b, S.OneFewer(db.books[b]));
      S.MergeOne(db.loans, id, NewLoan(tx5));
    }
  }

  lemma IssueAlone(db: Db, u: UserId, b: BookId, start: int, now: int, id: LoanId)
    requires Stocked(db) && id !in db.loans
    ensures var end := StepsAlone(db, NewTx(Issue(u, b)), 6, start, now, id);
            var (db', reply) := ServeIssue(db, u, b, start, now, id);
            match reply {
              case Failure(e) => end.pc == Aborted(e) && db' == db
              case Success(_) => end.pc == Ready && Install(db, end.writes) == db'
            }
  {
    hide StepsAlone, HasOverdue, HasOpen, Merge;
    var tx0 := NewTx(Issue(u, b));
    Unroll(db, tx0, 6, start, now, id);
    var tx1 := IssueStep(db, tx0, u, b, start, id);
    Unroll(db, tx1, 5, start, now, id);
    if !HasStatement(tx1) { return; }
    var tx2 := IssueStep(db, tx1, u, b, now, id);
    Unroll(db, tx2, 4, start, now, id);
    if !HasStatement(tx2) { return; }
    var tx3 := IssueStep(db, tx2, u, b, now, id);
    Unroll(db, tx3, 3, start, now, id);
    if tx3.pc.TakeInstance? {
      TakeAlone(db, tx3, start, now, id);
    } else {
      Unroll(db, IssueStep(db, tx3, u, b, now, id), 2, start, now, id);
    }
  }

  lemma CloseAlone(db: Db, tx: Tx, now: int, id: LoanId)
    requires tx.req.Return? && tx.pc.GiveBack? && tx.at == now && IsOpen(db, tx.req.loan)
    requires tx.row == Some(db.loans[tx.req.loan]) && db.loans[tx.req.loan].issuedAt <= now
    requires tx.writes.users == map[] && tx.writes.books == map[]
    requires tx.writes.loans == map[tx.req.loan := Some(db.loans[tx.req.loan].(returnedAt := Some(now)))]
    ensures var end := StepsAlone(db, tx, 2, now, now, id);
            var (db', reply) := ServeReturn(db, tx.req.loan, now);
            match reply {
              case Failure(e) => end.pc == Aborted(e) && db' == db
              case Success(_) => end.pc == Ready && Install(db, end.writes) == db'
            }
  {
    hide StepsAlone, Merge;
    var l := tx.req.loan;
    var loan := db.loans[l];
    Unroll(db, tx, 2, now, now, id);
    var tx3 := ReturnStep(db, tx, l, now);
    Unroll(db, tx3, 1, now, now, id);
    if tx3.pc.DecrementUser? {
      var tx4 := ReturnStep(db, tx3, l, now);
      Unroll(db, tx4, 0, now, now, id);
      if CanDecrement(db, loan.user) { S.MergeOne(db.users, loan.user, db.users[loan.user] - 1); }
      S.MergeOne(db.users, 0, 0);
      S.MergeOne(db.books, loan.book, S.OneMore(db.books[loan.book]));
      S.MergeOne(db.loans, l, loan.(returnedAt := Some(now)));
    }
  }

  lemma ReturnAlone(db: Db, l: LoanId, now: int, id: LoanId)
    ensures var end := StepsAlone(db, NewTx(Return(l)), 4, now, now, id);
            var (db', reply) := ServeReturn(db, l, now);
            match reply {
              case Failure(e) => end.pc == Aborted(e) && db' == db
              case Success(_) => end.pc == Ready && Install(db, end.writes) == db'
            }
  {
    hide StepsAlone, Install;
    var tx0 := NewTx(Return(l));
    Unroll(db, tx0, 4, now, now, id);
    var tx1 := ReturnStep(db, tx0, l, now);
    Unroll(db, tx1, 3, now, now, id);
    if HasStatement(tx1) {
      var tx2 := ReturnStep(db, tx1, l, now);
      if HasStatement(tx2) { CloseAlone(db, tx2, now, id); } else { Unroll(db, tx2, 2, now, now, id); }
    }
  }

  /** Without company no conflict is ever reported, and a return of valid tables finds its book. */
  lemma NoConflictAlone(db: Db, u: UserId, b: BookId, l: LoanId, start: int, now: int, id: LoanId)
    requires Valid(db) && id !in db.loans
    ensures StepsAlone(db, NewTx(Issue(u, b)), 6, start, now, id).pc != Aborted(ConcurrencyConflict)
    ensures StepsAlone(db, NewTx(Return(l)), 4, now, now, id).pc
            !in {Aborted(ConcurrencyConflict), Aborted(BookNotFound)}
  {
    hide StepsAlone, Counted, References, OneOpenEach, Install, NewTx;
    IssueAlone(db, u, b, start, now, id);
    ReturnAlone(db, l, now, id);
    ReturnIsApplied(db, l, now);
  }
}
