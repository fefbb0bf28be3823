/** What a caller of the library sees: the reply and the tables after each request, in terms of the
    rows and the clock alone. Limits and periods are written out as numbers.
 */
module Outcomes {
  import opened Common
  import opened Tables
  import opened SerialRuns

  // ---- Issues ----

  /** An open loan whose due day had fully passed when the request started. */
  ghost predicate OwesBook(db: Db, u: UserId, start: int) {
    exists l :: l in db.loans && db.loans[l].user == u && db.loans[l].returnedAt == None
                && (db.loans[l].due + 1) * 86400 <= start
  }

  ghost predicate HoldsBook(db: Db, u: UserId, b: BookId) {
    exists l :: l in db.loans && db.loans[l].user == u && db.loans[l].book == b && db.loans[l].returnedAt == None
  }

  lemma DayHasPassed(day: int, start: int)
    ensures day < DayOf(start) <==> (day + 1) * 86400 <= start
  {
  }

  lemma OverdueIsOwed(db: Db, u: UserId, start: int)
    ensures HasOverdue(db, u, DayOf(start)) <==> OwesBook(db, u, start)
  {
    forall l | l in db.loans
      ensures db.loans[l].due < DayOf(start) <==> (db.loans[l].due + 1) * 86400 <= start
    {
      DayHasPassed(db.loans[l].due, start);
    }
  }

  lemma OpenIsHeld(db: Db, u: UserId, b: BookId)
    ensures HasOpen(db, u, b) <==> HoldsBook(db, u, b)
  {
    if l :| l in db.loans && db.loans[l].user == u && db.loans[l].book == b && db.loans[l].returnedAt == None {
      assert l in OpenOf(db, u, b);
    }
    if l :| l in OpenOf(db, u, b) {
      assert db.loans[l].user == u && db.loans[l].book == b && db.loans[l].returnedAt == None;
    }
  }

  /** Which error an issue raises, and when it raises none. */
  lemma IssueRaises(db: Db, u: UserId, b: BookId, start: int, now: int, id: LoanId)
    ensures var reply := ServeIssue(db, u, b, start, now, id).1;
            var owes, holds := OwesBook(db, u, start), HoldsBook(db, u, b);
            && (reply == Failure(LoanOverdue) <==> owes)
            && (reply == Failure(AlreadyBorrowingBook) <==> !owes && holds)
            && (reply == Failure(UserNotFound) <==> !owes && !holds && u !in db.users)
            && (reply == Failure(LoanLimitExceeded) <==> !owes && !holds && u in db.users && db.users[u] >= 5)
            && (reply == Failure(BookNotFound) <==>
                  !owes && !holds && u in db.users && db.users[u] < 5 && b !in db.books)
            && (reply == Failure(NoAvailableInstances) <==>
                  !owes && !holds && u in db.users && db.users[u] < 5 && b in db.books && db.books[b].available <= 0)
            && (reply.Success? <==>
                  && !owes && !holds && u in db.users && db.users[u] < 5 && b in db.books && db.books[b].available > 0
                  && id !in db.loans && now < (start / 86400 + 15) * 86400)
            && (reply.Failure? ==> reply.error !in {ConcurrencyConflict, LoanNotFound, AlreadyReturned, Cancelled})
  {
    OverdueIsOwed(db, u, start);
    OpenIsHeld(db, u, b);
    DayHasPassed(DayOf(start) + 14, now);
    hide HasOverdue, HasOpen, OwesBook, HoldsBook;
  }

  /** A successful issue adds one loan, due on the fourteenth day after the day it started, one book
      on hand and one copy less; a refused one changes nothing. */
  lemma IssueChanges(db: Db, u: UserId, b: BookId, start: int, now: int, id: LoanId)
    ensures var (db', reply) := ServeIssue(db, u, b, start, now, id);
            && (reply.Failure? ==> db' == db)
            && (reply.Success? ==>
                  var lent := Loan(u, b, now, start / 86400 + 14, None);
                  && u in db.users && db'.users == db.users[u := db.users[u] + 1]
                  && b in db.books && db'.books == db.books[b := Book(db.books[b].title, db.books[b].available - 1)]
                  && db'.loans == db.loans[id := lent]
                  && reply.value == Receipt(id, lent, db.books[b].available - 1))
  {
    hide HasOverdue, HasOpen;
  }

  // ---- Returns ----

  /** Which error a return raises, and when it raises none. */
  lemma ReturnRaises(db: Db, l: LoanId, now: int)
    ensures var reply := ServeReturn(db, l, now).1;
            && (reply == Failure(LoanNotFound) <==> l !in db.loans)
            && (reply == Failure(AlreadyReturned) <==> l in db.loans && db.loans[l].returnedAt != None)
            && (reply == Failure(IntegrityViolation) <==>
                  l in db.loans && db.loans[l].returnedAt == None && now < db.loans[l].issuedAt)
            && (reply == Failure(BookNotFound) <==>
                  l in db.loans && db.loans[l].returnedAt == None && now >= db.loans[l].issuedAt
                  && db.loans[l].book !in db.books)
            && (reply.Success? <==>
                  l in db.loans && db.loans[l].returnedAt == None && now >= db.loans[l].issuedAt
                  && db.loans[l].book in db.books)
  {
  }

  /** A successful return stamps the loan, gives one copy back and takes one book off the user's
      hands, unless that counter is already zero; a refused one changes nothing. */
  lemma ReturnChanges(db: Db, l: LoanId, now: int)
    ensures var (db', reply) := ServeReturn(db, l, now);
            && (reply.Failure? ==> db' == db)
            && (reply.Success? ==>
                  && l in db.loans && db.loans[l].book in db.books
                  && var Loan(u, b, issuedAt, due, _) := db.loans[l];
                  && db'.loans == db.loans[l := Loan(u, b, issuedAt, due, Some(now))]
                  && db'.books == db.books[b := Book(db.books[b].title, db.books[b].available + 1)]
                  && (u in db.users && db.users[u] > 0 ==> db'.users == db.users[u := db.users[u] - 1])
                  && (u !in db.users || db.users[u] <= 0 ==> db'.users == db.users)
                  && reply.value == Receipt(l, Loan(u, b, issuedAt, due, Some(now)), db.books[b].available + 1))
  {
  }

  /** Returning what was just issued restores the counter and the shelf. */
  lemma ReturnUndoesIssue(db: Db, u: UserId, b: BookId, start: int, now: int, id: LoanId, later: int)
    requires ServeIssue(db, u, b, start, now, id).1.Success? && now <= later
    requires u in db.users ==> db.users[u] >= 0
    ensures var (db', reply) := ServeReturn(ServeIssue(db, u, b, start, now, id).0, id, later);
            && reply.Success? && db'.users == db.users && db'.books == db.books
            && db'.loans == db.loans[id := Loan(u, b, now, start / 86400 + 14, Some(later))]
            && reply.value.left == db.books[b].available
  {
    IssueRaises(db, u, b, start, now, id);
    IssueChanges(db, u, b, start, now, id);
    var lent := ServeIssue(db, u, b, start, now, id).0;
    ReturnRaises(lent, id, later);
    ReturnChanges(lent, id, later);
    hide ServeIssue, ServeReturn, OwesBook, HoldsBook;
  }

  // ---- Administration ----

  /** New rows start clean, updates move only the columns they name, deletions take the loans of the
      deleted row and nothing else. */
  lemma AdminChanges(db: Db, op: Op)
    requires !op.IssueOp? && !op.ReturnOp?
    ensures var (db', reply) := ServeAdmin(db, op);
            match op {
              case CreateUserOp(u) =>
                if u in db.users then reply == Failure(IntegrityViolation) && db' == db
                else reply == Success(()) && db' == Db(db.users[u := 0], db.books, db.loans)
              case DeleteUserOp(u) =>
                if u !in db.users then reply == Failure(UserNotFound) && db' == db
                else reply == Success(()) && db'.users == db.users - {u} && db'.books == db.books
                     && db'.loans == map l | l in db.loans && db.loans[l].user != u :: db.loans[l]
              case CreateBookOp(b, title, copies) =>
                if b in db.books then reply == Failure(IntegrityViolation) && db' == db
                else reply == Success(()) && db' == Db(db.users, db.books[b := Book(title, copies)], db.loans)
              case UpdateBookOp(b, title, copies) =>
                if b !in db.books then reply == Failure(BookNotFound) && db' == db
                else
                  && reply == Success(()) && db'.users == db.users && db'.loans == db.loans
                  && db'.books.Keys == db.books.Keys
                  && (forall c :: c in db.books && c != b ==> db'.books[c] == db.books[c])
                  && (title == None ==> db'.books[b].title == db.books[b].title)
                  && (copies == None ==> db'.books[b].available == db.books[b].available)
                  && (title.Some? ==> db'.books[b].title == title.value)
                  && (copies.Some? ==> db'.books[b].available == copies.value)
              case DeleteBookOp(b) =>
                if b !in db.books then reply == Failure(BookNotFound) && db' == db
                else reply == Success(()) && db'.users == db.users && db'.books == db.books - {b}
                     && db'.loans == map l | l in db.loans && db.loans[l].book != b :: db.loans[l]
              case _ => true
            }
  {
  }

  // ---- Overdue by the date of issue ----

  /** Issue requests insert their loan at most `slack` days after the day they started. */
  predicate Prompt(calls: seq<Call>, slack: nat) {
    forall i :: 0 <= i < |calls| && calls[i].IssueCall? ==>
      calls[i].start <= calls[i].now < (calls[i].start / 86400 + slack + 1) * 86400
  }

  /** Loans fall due on the fourteenth day after the day they were issued, or up to `slack` days
      earlier. */
  ghost predicate DueOnDay(db: Db, slack: nat) {
    forall l :: l in db.loans ==>
      && db.loans[l].issuedAt / 86400 + 14 - slack <= db.loans[l].due
      && db.loans[l].due <= db.loans[l].issuedAt / 86400 + 14
  }

  lemma ServedStaysOnDay(db: Db, c: Call, slack: nat)
    requires WellFormed(c) && DueOnDay(db, slack) && Prompt([c], slack)
    ensures DueOnDay(Serve(db, c), slack)
  {
    match c
    case IssueCall(u, b, start, now, id) =>
      assert [c][0] == c;
      IssueChanges(db, u, b, start, now, id);
      hide ServeIssue;
    case ReturnCall(l, now) =>
      ReturnChanges(db, l, now);
      hide ServeReturn;
    case AdminCall(op) =>
      AdminChanges(db, op);
      hide ServeAdmin;
  }

  lemma {:induction false} RunStaysOnDay(db: Db, calls: seq<Call>, slack: nat)
    requires WellFormedAll(calls) && DueOnDay(db, slack) && Prompt(calls, slack)
    ensures DueOnDay(ServeAll(db, calls), slack)
    decreases |calls|
  {
    hide DueOnDay, Serve;
    if calls != [] {
      ServedStaysOnDay(db, calls[0], slack);
      RunStaysOnDay(Serve(db, calls[0]), calls[1..], slack);
    }
  }

  /** After any serial run: a user is refused as overdue only when an open loan was issued more than
      14 - slack days ago, and is refused whenever one was issued more than 14 days ago. With requests
      that never run past midnight the two conditions are one. */
  lemma RefusedByIssueDate(db: Db, calls: seq<Call>, slack: nat, c: Call)
    requires WellFormedAll(calls) && DueOnDay(db, slack) && Prompt(calls, slack) && c.IssueCall?
    ensures var before := ServeAll(db, calls);
            var refused := ServeIssue(before, c.user, c.book, c.start, c.now, c.id).1 == Failure(LoanOverdue);
            && (refused ==> exists l :: l in before.loans && before.loans[l].user == c.user
                                        && before.loans[l].returnedAt == None
                                        && before.loans[l].issuedAt / 86400 + 14 - slack < c.start / 86400)
            && ((exists l :: l in before.loans && before.loans[l].user == c.user
                             && before.loans[l].returnedAt == None
                             && before.loans[l].issuedAt / 86400 + 14 < c.start / 86400) ==> refused)
  {
    var before := ServeAll(db, calls);
    RunStaysOnDay(db, calls, slack);
    IssueRaises(before, c.user, c.book, c.start, c.now, c.id);
    hide ServeIssue, ServeAll, HoldsBook;
  }
}
