/** The users, books and book_loans tables, and the seven kinds of committed change they undergo.

    `Apply` describes each request as one indivisible change of the tables. The two layers that
    execute requests statement by statement (the interleaving machine in Transactions and the
    session object in LoanService) are both proved to do nothing but `Apply`.
 */
module Tables {

  import opened Common

  type BookId = nat
  type LoanId = nat

  const MAX_BOOKS_ON_HAND := 5
  const DEFAULT_LOAN_DAYS := 14
  const SECONDS_PER_DAY := 86400

  /** The calendar day (UTC) of a clock reading in seconds. */
  function DayOf(seconds: int): int {
    seconds / SECONDS_PER_DAY
  }

  datatype Book = Book(title: string, available: int)

  datatype Loan = Loan(user: UserId, book: BookId, issuedAt: int, due: int, returnedAt: Option<int>)

  /** A user row is represented by its books_on_hand counter. */
  datatype Db = Db(users: map<UserId, int>, books: map<BookId, Book>, loans: map<LoanId, Loan>)

  predicate IsOpen(db: Db, l: LoanId) {
    l in db.loans && db.loans[l].returnedAt.None?
  }

  function OpenOfUser(db: Db, u: UserId): set<LoanId> {
    set l | l in db.loans && db.loans[l].returnedAt.None? && db.loans[l].user == u
  }

  function OpenOfBook(db: Db, b: BookId): set<LoanId> {
    set l | l in db.loans && db.loans[l].returnedAt.None? && db.loans[l].book == b
  }

  function OpenOf(db: Db, u: UserId, b: BookId): set<LoanId> {
    set l | l in db.loans && db.loans[l].returnedAt.None? && db.loans[l].user == u && db.loans[l].book == b
  }

  // ---- The queries and guards of the repositories ----

  predicate HasOverdue(db: Db, u: UserId, day: int) {
    exists l :: l in db.loans && db.loans[l].returnedAt.None? && db.loans[l].user == u && db.loans[l].due < day
  }

  predicate HasOpen(db: Db, u: UserId, b: BookId) {
    OpenOf(db, u, b) != {}
  }

  predicate CanIncrement(db: Db, u: UserId) {
    u in db.users && db.users[u] < MAX_BOOKS_ON_HAND
  }

  predicate CanDecrement(db: Db, u: UserId) {
    u in db.users && db.users[u] > 0
  }

  predicate CanTake(db: Db, b: BookId) {
    b in db.books && db.books[b].available > 0
  }

  /** What a request can raise. `IntegrityViolation` is a constraint of the database that no
      repository method translates; `Cancelled` is any abort that comes from outside the request. */
  datatype Error =
    | LoanOverdue | AlreadyBorrowingBook | UserNotFound | LoanLimitExceeded | BookNotFound
    | NoAvailableInstances | ConcurrencyConflict | LoanNotFound | AlreadyReturned
    | IntegrityViolation | Cancelled

  // ---- Committed changes ----

  datatype Op =
    | IssueOp(user: UserId, book: BookId, loan: LoanId, issuedAt: int, due: int)
    | ReturnOp(loan: LoanId, at: int)
    | CreateUserOp(user: UserId)
    | DeleteUserOp(user: UserId)
    | CreateBookOp(book: BookId, title: string, copies: nat)
    | UpdateBookOp(book: BookId, newTitle: Option<string>, newCopies: Option<nat>)
    | DeleteBookOp(book: BookId)

  predicate Enabled(db: Db, op: Op) {
    match op
    case IssueOp(u, b, l, issuedAt, due) =>
      && CanIncrement(db, u) && CanTake(db, b) && !HasOpen(db, u, b)
      && l !in db.loans && DayOf(issuedAt) <= due
    case ReturnOp(l, at) =>
      && IsOpen(db, l) && db.loans[l].issuedAt <= at
      && db.loans[l].book in db.books && CanDecrement(db, db.loans[l].user)
    case CreateUserOp(u) => u !in db.users
    case DeleteUserOp(u) => u in db.users
    case CreateBookOp(b, _, _) => b !in db.books
    case UpdateBookOp(b, _, _) => b in db.books
    case DeleteBookOp(b) => b in db.books
  }

  function Updated(book: Book, newTitle: Option<string>, newCopies: Option<nat>): Book {
    Book(if newTitle.Some? then newTitle.value else book.title,
         if newCopies.Some? then newCopies.value else book.available)
  }

  function Apply(db: Db, op: Op): Db
    requires Enabled(db, op)
  {
    match op
    case IssueOp(u, b, l, issuedAt, due) =>
      Db(db.users[u := db.users[u] + 1],
         db.books[b := db.books[b].(available := db.books[b].available - 1)],
         db.loans[l := Loan(u, b, issuedAt, due, None)])
    case ReturnOp(l, at) =>
      var loan := db.loans[l];
      Db(db.users[loan.user := db.users[loan.user] - 1],
         db.books[loan.book := db.books[loan.book].(available := db.books[loan.book].available + 1)],
         db.loans[l := loan.(returnedAt := Some(at))])
    case CreateUserOp(u) => db.(users := db.users[u := 0])
    case DeleteUserOp(u) =>
      Db(db.users - {u}, db.books, map l | l in db.loans && db.loans[l].user != u :: db.loans[l])
    case CreateBookOp(b, title, copies) => db.(books := db.books[b := Book(title, copies)])
    case UpdateBookOp(b, title, copies) => db.(books := db.books[b := Updated(db.books[b], title, copies)])
    case DeleteBookOp(b) =>
      Db(db.users, db.books - {b}, map l | l in db.loans && db.loans[l].book != b :: db.loans[l])
  }

  // ---- The invariant of every committed state ----

  /** Both ends of every loan exist (the foreign keys with ON DELETE CASCADE). */
  ghost predicate References(db: Db) {
    forall l :: l in db.loans ==> db.loans[l].user in db.users && db.loans[l].book in db.books
  }

  /** The counter bounds the real number of open loans, and is bounded by the limit. */
  ghost predicate Counted(db: Db) {
    forall u :: u in db.users ==> |OpenOfUser(db, u)| <= db.users[u] <= MAX_BOOKS_ON_HAND
  }

  ghost predicate Stocked(db: Db) {
    forall b :: b in db.books ==> 0 <= db.books[b].available
  }

  predicate SameEnds(a: Loan, b: Loan) {
    a.user == b.user && a.book == b.book
  }

  /** At most one open loan of a user for a book (the partial unique index). */
  ghost predicate OneOpenEach(db: Db) {
    forall l, m | IsOpen(db, l) && IsOpen(db, m) && SameEnds(db.loans[l], db.loans[m]) :: l == m
  }

  ghost predicate Valid(db: Db) {
    References(db) && Counted(db) && Stocked(db) && OneOpenEach(db)
  }

  /** What one change does to the open loans of a user. */
  lemma OpenOfUserAfter(db: Db, op: Op, u: UserId)
    requires Enabled(db, op)
    ensures OpenOfUser(Apply(db, op), u) ==
            match op {
              case IssueOp(v, _, l, _, _) => OpenOfUser(db, u) + if u == v then {l} else {}
              case ReturnOp(l, _) => OpenOfUser(db, u) - {l}
              case DeleteUserOp(v) => if u == v then {} else OpenOfUser(db, u)
              case DeleteBookOp(b) => OpenOfUser(db, u) - OpenOf(db, u, b)
              case _ => OpenOfUser(db, u)
            }
    ensures op.IssueOp? ==> op.loan !in OpenOfUser(db, u)
    ensures op.ReturnOp? ==> (op.loan in OpenOfUser(db, u) <==> db.loans[op.loan].user == u)
    ensures op.DeleteBookOp? ==> OpenOf(db, u, op.book) <= OpenOfUser(db, u)
  {
  }

  /** What one change does to the open loans of a book. */
  lemma OpenOfBookAfter(db: Db, op: Op, b: BookId)
    requires Enabled(db, op)
    ensures OpenOfBook(Apply(db, op), b) ==
            match op {
              case IssueOp(_, c, l, _, _) => OpenOfBook(db, b) + if b == c then {l} else {}
              case ReturnOp(l, _) => OpenOfBook(db, b) - {l}
              case DeleteUserOp(u) => OpenOfBook(db, b) - OpenOf(db, u, b)
              case DeleteBookOp(c) => if b == c then {} else OpenOfBook(db, b)
              case _ => OpenOfBook(db, b)
            }
    ensures op.IssueOp? ==> op.loan !in OpenOfBook(db, b)
    ensures op.ReturnOp? ==> (op.loan in OpenOfBook(db, b) <==> db.loans[op.loan].book == b)
    ensures op.DeleteUserOp? ==> OpenOf(db, op.user, b) <= OpenOfBook(db, b)
  {
  }

  /** Nobody has a loan before existing. */
  lemma NoLoansWithoutEnds(db: Db, u: UserId, b: BookId)
    requires References(db)
    ensures u !in db.users ==> OpenOfUser(db, u) == {}
    ensures b !in db.books ==> OpenOfBook(db, b) == {}
  {
  }

  lemma ApplyKeepsCounted(db: Db, op: Op)
    requires Valid(db) && Enabled(db, op)
    ensures Counted(Apply(db, op))
  {
    var after := Apply(db, op);
    forall u | u in after.users
      ensures |OpenOfUser(after, u)| <= after.users[u] <= MAX_BOOKS_ON_HAND
    {
      OpenOfUserAfter(db, op, u);
      match op
      case IssueOp(v, _, l, _, _) =>
      case ReturnOp(l, _) =>
        if db.loans[l].user == u { SubsetSize({l}, OpenOfUser(db, u)); }
      case DeleteBookOp(b) =>
        SubsetSize(OpenOf(db, u, b), OpenOfUser(db, u));
      case CreateUserOp(v) =>
        if u == v { assert OpenOfUser(db, u) == {}; }
      case _ =>
    }
  }

  lemma ApplyKeepsOneOpenEach(db: Db, op: Op)
    requires Valid(db) && Enabled(db, op)
    ensures OneOpenEach(Apply(db, op))
  {
    var after := Apply(db, op);
    forall l, m | IsOpen(after, l) && IsOpen(after, m) && SameEnds(after.loans[l], after.loans[m])
      ensures l == m
    {
      if op.IssueOp? {
        assert l !in OpenOf(db, op.user, op.book) && m !in OpenOf(db, op.user, op.book);
      } else {
        assert IsOpen(db, l) && IsOpen(db, m);
        assert SameEnds(db.loans[l], db.loans[m]);
      }
    }
  }

  /** Each committed change keeps the invariant. */
  lemma ApplyKeepsValid(db: Db, op: Op)
    requires Valid(db) && Enabled(db, op)
    ensures Valid(Apply(db, op))
  {
    ApplyKeepsCounted(db, op);
    ApplyKeepsOneOpenEach(db, op);
  }
}
