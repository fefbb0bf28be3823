/** The request path as it executes: a session that changes the tables row by row and can undo
    its changes, the repositories' statements on it, and the use cases that string them together.
 */
module LoanService {
  import opened Common
  import opened Tables
  import opened SerialRuns

  /** The row as it was before a statement touched it; None if it did not exist. */
  datatype Undo =
    | UserWas(user: UserId, userRow: Option<int>)
    | BookWas(book: BookId, bookRow: Option<Book>)
    | LoanWas(loan: LoanId, loanRow: Option<Loan>)

  function Restore(db: Db, e: Undo): Db {
    match e
    case UserWas(u, v) => db.(users := Put(db.users, u, v))
    case BookWas(b, v) => db.(books := Put(db.books, b, v))
    case LoanWas(l, v) => db.(loans := Put(db.loans, l, v))
  }

  /** The tables with the undo log played back, newest entry first. */
  function Rewind(db: Db, undo: seq<Undo>): Db
    decreases |undo|
  {
    if undo == [] then db else Rewind(Restore(db, undo[|undo| - 1]), undo[..|undo| - 1])
  }

  lemma RewindLast(db: Db, undo: seq<Undo>, e: Undo)
    ensures Rewind(db, undo + [e]) == Rewind(Restore(db, e), undo)
  {
  }

  class Session {
    var users: map<UserId, int>
    var books: map<BookId, Book>
    var loans: map<LoanId, Loan>
    var undo: seq<Undo>
    ghost var committed: Db

    function Db(): Db
      reads this
    {
      Tables.Db(users, books, loans)
    }

    /** Rolling back now would restore the committed tables. */
    ghost predicate Valid()
      reads this
    {
      Rewind(Db(), undo) == committed
    }

    /** The session has not changed anything. */
    ghost predicate Idle()
      reads this
    {
      undo == [] && Db() == committed
    }

    constructor (db: Db)
      ensures Idle() && committed == db
    {
      users, books, loans, undo, committed := db.users, db.books, db.loans, [], db;
    }

    method WriteUser(u: UserId, v: Option<int>)
      requires Valid()
      modifies this
      ensures Valid() && committed == old(committed)
      ensures Db() == old(Db()).(users := Put(old(users), u, v))
    {
      RewindLast(Db().(users := Put(users, u, v)), undo, UserWas(u, RowAt(users, u)));
      PutBack(users, u, v);
      undo := undo + [UserWas(u, RowAt(users, u))];
      users := Put(users, u, v);
    }

    method WriteBook(b: BookId, v: Option<Book>)
      requires Valid()
      modifies this
      ensures Valid() && committed == old(committed)
      ensures Db() == old(Db()).(books := Put(old(books), b, v))
    {
      RewindLast(Db().(books := Put(books, b, v)), undo, BookWas(b, RowAt(books, b)));
      PutBack(books, b, v);
      undo := undo + [BookWas(b, RowAt(books, b))];
      books := Put(books, b, v);
    }

    method WriteLoan(l: LoanId, v: Option<Loan>)
      requires Valid()
      modifies this
      ensures Valid() && committed == old(committed)
      ensures Db() == old(Db()).(loans := Put(old(loans), l, v))
    {
      RewindLast(Db().(loans := Put(loans, l, v)), undo, LoanWas(l, RowAt(loans, l)));
      PutBack(loans, l, v);
      undo := undo + [LoanWas(l, RowAt(loans, l))];
      loans := Put(loans, l, v);
    }

    method Commit()
      modifies this
      ensures Db() == old(Db()) && committed == Db() && Idle()
    {
      undo := [];
      committed := Db();
    }

    /** Rolling back restores the committed tables, whatever was written. */
    method Rollback()
      requires Valid()
      modifies this
      ensures Db() == old(committed) && committed == old(committed) && Idle()
    {
      while undo != []
        invariant Valid() && committed == old(committed)
        decreases |undo|
      {
        var db := Restore(Db(), undo[|undo| - 1]);
        users, books, loans, undo := db.users, db.books, db.loans, undo[..|undo| - 1];
      }
    }
  }

  class UserRepository {
    const session: Session

    constructor (s: Session)
      ensures session == s
    {
      session := s;
    }

    method IncrementBooksOnHand(u: UserId, max: int) returns (updated: bool)
      requires session.Valid()
      modifies session
      ensures session.Valid() && session.committed == old(session.committed)
      ensures updated <==> u in old(session.users) && old(session.users)[u] < max
      ensures session.Db() == old(session.Db()).(users :=
                if updated then old(session.users)[u := old(session.users)[u] + 1] else old(session.users))
    {
      updated := u in session.users && session.users[u] < max;
      if updated { session.WriteUser(u, Some(session.users[u] + 1)); }
    }

    method DecrementBooksOnHand(u: UserId) returns (updated: bool)
      requires session.Valid()
      modifies session
      ensures session.Valid() && session.committed == old(session.committed)
      ensures updated <==> CanDecrement(old(session.Db()), u)
      ensures session.Db() == old(session.Db()).(users :=
                if updated then old(session.users)[u := old(session.users)[u] - 1] else old(session.users))
    {
      updated := CanDecrement(session.Db(), u);
      if updated { session.WriteUser(u, Some(session.users[u] - 1)); }
    }

    /** A new row starts with no book on hand; flushing it fails on its key. */
    method Create(u: UserId) returns (r: Reply<()>)
      requires session.Valid()
      modifies session
      ensures session.Valid() && session.committed == old(session.committed)
      ensures r == if u in old(session.users) then Failure(IntegrityViolation) else Success(())
      ensures session.Db() == if r.Success? then Apply(old(session.Db()), CreateUserOp(u)) else old(session.Db())
    {
      if u in session.users { return Failure(IntegrityViolation); }
      session.WriteUser(u, Some(0));
      return Success(());
    }

    method Delete(u: UserId) returns (deleted: bool)
      requires session.Valid()
      modifies session
      ensures session.Valid() && session.committed == old(session.committed)
      ensures deleted <==> u in old(session.users)
      ensures session.Db() == if deleted then Apply(old(session.Db()), DeleteUserOp(u)) else old(session.Db())
    {
      deleted := u in session.users;
      if deleted {
        ghost var before := session.Db();
        session.WriteUser(u, None);
        var victims := set l | l in session.loans && session.loans[l].user == u;
        DeleteLoans(session, victims);
        assert session.loans == Apply(before, DeleteUserOp(u)).loans;
      }
    }
  }

  /** The foreign key's ON DELETE CASCADE: every loan of the deleted row goes, one at a time. */
  method DeleteLoans(session: Session, victims: set<LoanId>)
    requires session.Valid() && forall l :: l in victims ==> l in session.loans
    modifies session
    ensures session.Valid() && session.committed == old(session.committed)
    ensures session.users == old(session.users) && session.books == old(session.books)
    ensures session.loans == old(session.loans) - victims
  {
    var todo := victims;
    while todo != {}
      invariant todo <= victims && session.Valid() && session.committed == old(session.committed)
      invariant session.users == old(session.users) && session.books == old(session.books)
      invariant session.loans == old(session.loans) - (victims - todo)
    {
      var l :| l in todo;
      session.WriteLoan(l, None);
      todo := todo - {l};
    }
  }

  class BookRepository {
    const session: Session

    constructor (s: Session)
      ensures session == s
    {
      session := s;
    }

    method Create(b: BookId, title: string, copies: nat) returns (r: Reply<()>)
      requires session.Valid()
      modifies session
      ensures session.Valid() && session.committed == old(session.committed)
      ensures r == if b in old(session.books) then Failure(IntegrityViolation) else Success(())
      ensures session.Db() == if r.Success? then Apply(old(session.Db()), CreateBookOp(b, title, copies))
                              else old(session.Db())
    {
      if b in session.books { return Failure(IntegrityViolation); }
      session.WriteBook(b, Some(Book(title, copies)));
      return Success(());
    }

    method TakeAvailableInstance(b: BookId) returns (reserved: Option<Book>)
      requires session.Valid()
      modifies session
      ensures session.Valid() && session.committed == old(session.committed)
      ensures reserved.Some? <==> CanTake(old(session.Db()), b)
      ensures reserved.Some? ==>
                var was := old(session.books)[b];
                reserved.value == was.(available := was.available - 1)
                && session.Db() == old(session.Db()).(books := old(session.books)[b := reserved.value])
      ensures reserved.None? ==> session.Db() == old(session.Db())
    {
      reserved := None;
      if b in session.books && session.books[b].available > 0 {
        reserved := Some(session.books[b].(available := session.books[b].available - 1));
        session.WriteBook(b, reserved);
      }
    }

    method ReturnInstance(b: BookId) returns (returned: Option<Book>)
      requires session.Valid()
      modifies session
      ensures session.Valid() && session.committed == old(session.committed)
      ensures returned.Some? <==> b in old(session.books)
      ensures returned.Some? ==>
                var was := old(session.books)[b];
                returned.value == was.(available := was.available + 1)
                && session.Db() == old(session.Db()).(books := old(session.books)[b := returned.value])
      ensures returned.None? ==> session.Db() == old(session.Db())
    {
      returned := None;
      if b in session.books {
        returned := Some(session.books[b].(available := session.books[b].available + 1));
        session.WriteBook(b, returned);
      }
    }

    /** Flushing a new loan fails on the primary key, the due-date check, or the unique index. */
    method CreateLoan(u: UserId, b: BookId, due: int, now: int, id: LoanId) returns (r: Reply<Loan>)
      requires session.Valid()
      modifies session
      ensures session.Valid() && session.committed == old(session.committed)
      ensures r == if id in old(session.loans) || DayOf(now) > due || HasOpen(old(session.Db()), u, b)
                   then Failure(IntegrityViolation) else Success(Loan(u, b, now, due, None))
      ensures session.Db() == if r.Failure? then old(session.Db())
                              else old(session.Db()).(loans := old(session.loans)[id := r.value])
    {
      if id in session.loans || DayOf(now) > due || HasOpen(session.Db(), u, b) {
        return Failure(IntegrityViolation);
      }
      r := Success(Loan(u, b, now, due, None));
      session.WriteLoan(id, Some(r.value));
    }

    method MarkLoanReturned(l: LoanId, now: int) returns (r: Reply<Option<Loan>>)
      requires session.Valid()
      modifies session
      ensures session.Valid() && session.committed == old(session.committed)
      ensures r == if !IsOpen(old(session.Db()), l) then Success(None)
                   else if now < old(session.loans)[l].issuedAt then Failure(IntegrityViolation)
                   else Success(Some(old(session.loans)[l].(returnedAt := Some(now))))
      ensures session.Db() == if r.Success? && r.value.Some?
                              then old(session.Db()).(loans := old(session.loans)[l := r.value.value])
                              else old(session.Db())
    {
      if !IsOpen(session.Db(), l) { return Success(None); }
      if now < session.loans[l].issuedAt { return Failure(IntegrityViolation); }
      r := Success(Some(session.loans[l].(returnedAt := Some(now))));
      session.WriteLoan(l, r.value);
    }

    method Update(b: BookId, title: Option<string>, copies: Option<nat>) returns (updated: bool)
      requires session.Valid()
      modifies session
      ensures session.Valid() && session.committed == old(session.committed)
      ensures updated <==> b in old(session.books)
      ensures session.Db() == if updated then Apply(old(session.Db()), UpdateBookOp(b, title, copies))
                              else old(session.Db())
    {
      updated := b in session.books;
      if updated { session.WriteBook(b, Some(Updated(session.books[b], title, copies))); }
    }

    method Delete(b: BookId) returns (deleted: bool)
      requires session.Valid()
      modifies session
      ensures session.Valid() && session.committed == old(session.committed)
      ensures deleted <==> b in old(session.books)
      ensures session.Db() == if deleted then Apply(old(session.Db()), DeleteBookOp(b)) else old(session.Db())
    {
      deleted := b in session.books;
      if deleted {
        ghost var before := session.Db();
        session.WriteBook(b, None);
        var victims := set l | l in session.loans && session.loans[l].book == b;
        DeleteLoans(session, victims);
        assert session.loans == Apply(before, DeleteBookOp(b)).loans;
      }
    }
  }

  class BookUseCases {
    const session: Session
    const books: BookRepository
    const users: UserRepository

    ghost predicate Wired() {
      books.session == session && users.session == session
    }

    constructor (s: Session, b: BookRepository, u: UserRepository)
      requires b.session == s && u.session == s
      ensures Wired() && session == s
    {
      session, books, users := s, b, u;
    }

    /** A failed issue may leave the tables changed; a successful one has done all of it. */
    method IssueBook(u: UserId, b: BookId, start: int, now: int, id: LoanId) returns (r: Reply<Receipt>)
      requires Wired() && session.Idle()
      modifies session
      ensures session.Valid() && session.committed == old(session.Db())
      ensures r == ServeIssue(old(session.Db()), u, b, start, now, id).1
      ensures r.Success? ==> session.Db() == ServeIssue(old(session.Db()), u, b, start, now, id).0
    {
      if HasOverdue(session.Db(), u, DayOf(start)) { return Failure(LoanOverdue); }
      if HasOpen(session.Db(), u, b) { return Failure(AlreadyBorrowingBook); }
      var updatedUser := users.IncrementBooksOnHand(u, MAX_BOOKS_ON_HAND);
      if !updatedUser {
        if u !in session.users { return Failure(UserNotFound); }
        return Failure(LoanLimitExceeded);
      }
      var reserved := books.TakeAvailableInstance(b);
      if reserved.None? {
        if b !in session.books { return Failure(BookNotFound); }
        if session.books[b].available <= 0 { return Failure(NoAvailableInstances); }
        return Failure(ConcurrencyConflict);
      }
      var due := DayOf(start) + DEFAULT_LOAN_DAYS;
      var loan := books.CreateLoan(u, b, due, now, id);
      if loan.Failure? { return Failure(loan.error); }
      return Success(Receipt(id, loan.value, reserved.value.available));
    }

    method ReturnBook(l: LoanId, now: int) returns (r: Reply<Receipt>)
      requires Wired() && session.Idle()
      modifies session
      ensures session.Valid() && session.committed == old(session.Db())
      ensures r == ServeReturn(old(session.Db()), l, now).1
      ensures r.Success? ==> session.Db() == ServeReturn(old(session.Db()), l, now).0
    {
      if l !in session.loans { return Failure(LoanNotFound); }
      var loan := session.loans[l];
      if loan.returnedAt.Some? { return Failure(AlreadyReturned); }
      var closed := books.MarkLoanReturned(l, now);
      if closed.Failure? { return Failure(closed.error); }
      if closed.value.None? { return Failure(ConcurrencyConflict); }
      var returned := books.ReturnInstance(loan.book);
      if returned.None? { return Failure(BookNotFound); }
      var _ := users.DecrementBooksOnHand(loan.user);
      return Success(Receipt(l, closed.value.value, returned.value.available));
    }

    method UpdateBook(b: BookId, title: Option<string>, copies: Option<nat>) returns (r: Reply<()>)
      requires Wired() && session.Idle()
      modifies session
      ensures session.Valid() && session.committed == old(session.Db())
      ensures (session.Db(), r) == ServeAdmin(old(session.Db()), UpdateBookOp(b, title, copies))
    {
      if title.None? && copies.None? {
        if b !in session.books { return Failure(BookNotFound); }
        assert session.books[b := Updated(session.books[b], title, copies)] == session.books;
        return Success(());
      }
      var updated := books.Update(b, title, copies);
      return if updated then Success(()) else Failure(BookNotFound);
    }

    method DeleteBook(b: BookId) returns (r: Reply<()>)
      requires Wired() && session.Idle()
      modifies session
      ensures session.Valid() && session.committed == old(session.Db())
      ensures (session.Db(), r) == ServeAdmin(old(session.Db()), DeleteBookOp(b))
    {
      var deleted := books.Delete(b);
      return if deleted then Success(()) else Failure(BookNotFound);
    }
  }

  /** The administrative use cases. */
  method HandleAdmin(service: BookUseCases, op: Op) returns (r: Reply<()>)
    requires service.Wired() && service.session.Idle() && !op.IssueOp? && !op.ReturnOp?
    modifies service.session
    ensures service.session.Valid() && service.session.committed == old(service.session.Db())
    ensures (service.session.Db(), r) == ServeAdmin(old(service.session.Db()), op)
  {
    match op {
      case CreateUserOp(u) => r := service.users.Create(u);
      case DeleteUserOp(u) =>
        var deleted := service.users.Delete(u);
        r := if deleted then Success(()) else Failure(UserNotFound);
      case CreateBookOp(b, title, copies) => r := service.books.Create(b, title, copies);
      case UpdateBookOp(b, title, copies) => r := service.UpdateBook(b, title, copies);
      case DeleteBookOp(b) => r := service.DeleteBook(b);
    }
  }

  /** The transactional session around a request: commit on success, roll back on any raise.
      The stored tables move by the whole request or not at all. */
  method Handle(service: BookUseCases, call: Call) returns (r: Reply<Option<Receipt>>)
    requires service.Wired() && service.session.Idle()
    requires WellFormed(call)
    modifies service.session
    ensures service.session.Idle()
    ensures service.session.committed == Serve(old(service.session.committed), call)
    ensures r.Failure? ==> service.session.committed == old(service.session.committed)
    ensures match call
            case IssueCall(u, b, start, now, id) =>
              (var reply := ServeIssue(old(service.session.committed), u, b, start, now, id).1;
               r == if reply.Success? then Success(Some(reply.value)) else Failure(reply.error))
            case ReturnCall(l, now) =>
              (var reply := ServeReturn(old(service.session.committed), l, now).1;
               r == if reply.Success? then Success(Some(reply.value)) else Failure(reply.error))
            case AdminCall(op) =>
              (var reply := ServeAdmin(old(service.session.committed), op).1;
               r == if reply.Success? then Success(None) else Failure(reply.error))
  {
    match call {
    case IssueCall(u, b, start, now, id) =>
      var reply := service.IssueBook(u, b, start, now, id);
      r := if reply.Success? then Success(Some(reply.value)) else Failure(reply.error);
    case ReturnCall(l, now) =>
      var reply := service.ReturnBook(l, now);
      r := if reply.Success? then Success(Some(reply.value)) else Failure(reply.error);
    case AdminCall(op) =>
      var reply := HandleAdmin(service, op);
      r := if reply.Success? then Success(None) else Failure(reply.error);
    }
    if r.Success? { service.session.Commit(); } else { service.session.Rollback(); }
  }
}
