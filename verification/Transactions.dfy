/** Many transactions in flight over the tables, one statement at a time.

    Isolation is read committed, with row locks held to the end of the transaction:
    - a query reads the committed rows (no program here re-reads a row it has written);
    - a guarded UPDATE whose guard fails on the committed row changes nothing and does not wait;
      otherwise it waits for the row's lock, takes it, and writes a private version of the row
      computed from the latest committed one;
    - an INSERT of an open loan also waits for the entry of the partial unique index on
      (user, book), that is for any transaction that is inserting or closing such a loan;
    - COMMIT installs the private versions and frees the locks; an abort drops both.
    The scheduler picks any transaction, any clock reading and any unused identifier, and may
    abort any transaction at any time.
 */
module Transactions {
  import opened Common
  import opened Tables
  import opened CommitLog

  datatype Request =
    | Issue(user: UserId, book: BookId)
    | Return(loan: LoanId)
    | CreateUser(user: UserId)
    | DeleteUser(user: UserId)
    | CreateBook(book: BookId, title: string, copies: nat)
    | UpdateBook(book: BookId, newTitle: Option<string>, newCopies: Option<nat>)
    | DeleteBook(book: BookId)

  datatype Row = UserRow(user: UserId) | BookRow(book: BookId) | LoanRow(loan: LoanId)
               | OpenKey(keyUser: UserId, keyBook: BookId)

  /** Program counters, named after the statement about to run. `OneRow` is the single UPDATE,
      INSERT or DELETE of an administrative request, `Cascade` the rows its foreign keys delete. */
  datatype Pc =
    | CheckOverdue | CheckOpen | IncrementUser | DiagnoseUser | TakeInstance | DiagnoseBook | InsertLoan
    | ReadLoan | MarkReturned | GiveBack | DecrementUser
    | OneRow | Cascade
    | Ready | Committed | Aborted(error: Error)

  /** Private row versions; None stands for a deleted row. */
  datatype Writes = Writes(users: map<UserId, Option<int>>,
                           books: map<BookId, Option<Book>>,
                           loans: map<LoanId, Option<Loan>>)

  const NO_WRITES := Writes(map[], map[], map[])

  /** `today`, `row`, `loanId` and `at` are the program's local variables. */
  datatype Tx = Tx(req: Request, pc: Pc, today: int, row: Option<Loan>, loanId: LoanId, at: int,
                   writes: Writes, locks: set<Row>)

  /** `born` records every loan ever inserted, committed or not: identifiers are never reused. */
  datatype State = State(db: Db, txs: map<TxId, Tx>, born: map<LoanId, Loan>, log: seq<Entry<Op>>)

  datatype Action =
    | Begin(t: TxId, req: Request)
    | Statement(t: TxId, now: int, id: LoanId)
    | CascadeTo(t: TxId, victim: LoanId)
    | EndCascade(t: TxId)
    | Commit(t: TxId)
    | Cancel(t: TxId)

  predicate Finished(tx: Tx) {
    tx.pc.Committed? || tx.pc.Aborted?
  }

  predicate HasStatement(tx: Tx) {
    !Finished(tx) && !tx.pc.Cascade? && !tx.pc.Ready?
  }

  function Raise(tx: Tx, error: Error): Tx {
    tx.(pc := Aborted(error), writes := NO_WRITES, locks := {})
  }

  function NewTx(req: Request): Tx {
    var pc := if req.Issue? then CheckOverdue else if req.Return? then ReadLoan else OneRow;
    Tx(req, pc, 0, None, 0, 0, NO_WRITES, {})
  }

  function NewLoan(tx: Tx): Loan
    requires tx.req.Issue?
  {
    Loan(tx.req.user, tx.req.book, tx.at, tx.today + DEFAULT_LOAN_DAYS, None)
  }

  // ---- The programs ----

  function PutUser(tx: Tx, u: UserId, v: Option<int>): Tx {
    tx.(writes := tx.writes.(users := tx.writes.users[u := v]), locks := tx.locks + {UserRow(u)})
  }

  function PutBook(tx: Tx, b: BookId, v: Option<Book>): Tx {
    tx.(writes := tx.writes.(books := tx.writes.books[b := v]), locks := tx.locks + {BookRow(b)})
  }

  function PutLoan(tx: Tx, l: LoanId, v: Option<Loan>): Tx {
    tx.(writes := tx.writes.(loans := tx.writes.loans[l := v]), locks := tx.locks + {LoanRow(l)})
  }

  function IssueStep(db: Db, tx: Tx, u: UserId, b: BookId, now: int, id: LoanId): Tx
    requires tx.req == Issue(u, b)
  {
    match tx.pc
    case CheckOverdue =>
      if HasOverdue(db, u, DayOf(now)) then Raise(tx, LoanOverdue)
      else tx.(today := DayOf(now), pc := CheckOpen)
    case CheckOpen =>
      if HasOpen(db, u, b) then Raise(tx, AlreadyBorrowingBook) else tx.(pc := IncrementUser)
    case IncrementUser =>
      if CanIncrement(db, u) then PutUser(tx, u, Some(db.users[u] + 1)).(pc := TakeInstance)
      else tx.(pc := DiagnoseUser)
    case DiagnoseUser =>
      Raise(tx, if u in db.users then LoanLimitExceeded else UserNotFound)
    case TakeInstance =>
      if CanTake(db, b)
      then PutBook(tx, b, Some(db.books[b].(available := db.books[b].available - 1))).(pc := InsertLoan)
      else tx.(pc := DiagnoseBook)
    case DiagnoseBook =>
      Raise(tx, if b !in db.books then BookNotFound
                else if db.books[b].available <= 0 then NoAvailableInstances else ConcurrencyConflict)
    case InsertLoan =>
      if DayOf(now) > tx.today + DEFAULT_LOAN_DAYS || HasOpen(db, u, b) then Raise(tx, IntegrityViolation)
      else
        var tx' := tx.(loanId := id, at := now, pc := Ready, locks := tx.locks + {OpenKey(u, b)});
        PutLoan(tx', id, Some(NewLoan(tx')))
    case _ => tx
  }

  function ReturnStep(db: Db, tx: Tx, l: LoanId, now: int): Tx
    requires tx.req == Return(l)
  {
    match tx.pc
    case ReadLoan =>
      if l !in db.loans then Raise(tx, LoanNotFound)
      else if db.loans[l].returnedAt.Some? then Raise(tx, AlreadyReturned)
      else tx.(row := Some(db.loans[l]), pc := MarkReturned)
    case MarkReturned =>
      if !IsOpen(db, l) then Raise(tx, ConcurrencyConflict)
      else if now < db.loans[l].issuedAt then Raise(tx, IntegrityViolation)
      else PutLoan(tx, l, Some(db.loans[l].(returnedAt := Some(now)))).(at := now, pc := GiveBack)
    case GiveBack =>
      if tx.row.Some? && tx.row.value.book in db.books then
        var b := tx.row.value.book;
        PutBook(tx, b, Some(db.books[b].(available := db.books[b].available + 1))).(pc := DecrementUser)
      else Raise(tx, BookNotFound)
    case DecrementUser =>
      // A decrement that matches no row is not an error.
      if tx.row.Some? && CanDecrement(db, tx.row.value.user)
      then PutUser(tx, tx.row.value.user, Some(db.users[tx.row.value.user] - 1)).(pc := Ready)
      else tx.(pc := Ready)
    case _ => tx
  }

  function AdminStep(db: Db, tx: Tx): Tx {
    if !tx.pc.OneRow? then tx else
    match tx.req
    case CreateUser(u) =>
      if u in db.users then Raise(tx, IntegrityViolation) else PutUser(tx, u, Some(0)).(pc := Ready)
    case DeleteUser(u) =>
      if u !in db.users then Raise(tx, UserNotFound) else PutUser(tx, u, None).(pc := Cascade)
    case CreateBook(b, title, copies) =>
      if b in db.books then Raise(tx, IntegrityViolation)
      else PutBook(tx, b, Some(Book(title, copies))).(pc := Ready)
    case UpdateBook(b, title, copies) =>
      if b !in db.books then Raise(tx, BookNotFound)
      else PutBook(tx, b, Some(Updated(db.books[b], title, copies))).(pc := Ready)
    case DeleteBook(b) =>
      if b !in db.books then Raise(tx, BookNotFound) else PutBook(tx, b, None).(pc := Cascade)
    case _ => tx
  }

  /** The transaction after its next statement, once every needed lock is free. */
  function Step(db: Db, tx: Tx, now: int, id: LoanId): Tx {
    match tx.req
    case Issue(u, b) => IssueStep(db, tx, u, b, now, id)
    case Return(l) => ReturnStep(db, tx, l, now)
    case _ => AdminStep(db, tx)
  }

  /** The rows whose lock the next statement waits for; none when its guard fails. */
  function Needed(db: Db, tx: Tx, now: int): set<Row> {
    match tx.req
    case Issue(u, b) =>
      (match tx.pc
       case IncrementUser => if CanIncrement(db, u) then {UserRow(u)} else {}
       case TakeInstance => if CanTake(db, b) then {BookRow(b)} else {}
       case InsertLoan =>
         if DayOf(now) > tx.today + DEFAULT_LOAN_DAYS then {}
         else {OpenKey(u, b)} + (set l | l in OpenOf(db, u, b) :: LoanRow(l))
       case _ => {})
    case Return(l) =>
      (match tx.pc
       case MarkReturned => if IsOpen(db, l) then {LoanRow(l)} else {}
       case GiveBack =>
         if tx.row.Some? && tx.row.value.book in db.books then {BookRow(tx.row.value.book)} else {}
       case DecrementUser =>
         if tx.row.Some? && CanDecrement(db, tx.row.value.user) then {UserRow(tx.row.value.user)} else {}
       case _ => {})
    case CreateUser(u) => {UserRow(u)}
    case DeleteUser(u) => if u in db.users then {UserRow(u)} else {}
    case CreateBook(b, _, _) => {BookRow(b)}
    case UpdateBook(b, _, _) => if b in db.books then {BookRow(b)} else {}
    case DeleteBook(b) => if b in db.books then {BookRow(b)} else {}
  }

  /** The loans a deleting transaction still has to reach through its foreign key. */
  predicate IsVictim(db: Db, req: Request, l: LoanId) {
    && l in db.loans
    && ((req.DeleteUser? && db.loans[l].user == req.user) || (req.DeleteBook? && db.loans[l].book == req.book))
  }

  // ---- The scheduler ----

  predicate LockedByOther(s: State, t: TxId, r: Row) {
    exists t' :: t' in s.txs && t' != t && r in s.txs[t'].locks
  }

  predicate Can(s: State, a: Action) {
    match a
    case Begin(t, _) => t !in s.txs
    case Statement(t, now, id) =>
      && t in s.txs && HasStatement(s.txs[t]) && id !in s.born
      && forall r :: r in Needed(s.db, s.txs[t], now) ==> !LockedByOther(s, t, r)
    case CascadeTo(t, l) =>
      && t in s.txs && s.txs[t].pc.Cascade? && IsVictim(s.db, s.txs[t].req, l) && !LockedByOther(s, t, LoanRow(l))
    case EndCascade(t) =>
      && t in s.txs && s.txs[t].pc.Cascade?
      && forall l :: l in s.db.loans && IsVictim(s.db, s.txs[t].req, l) ==> l in s.txs[t].writes.loans
    case Commit(t) => t in s.txs && s.txs[t].pc.Ready?
    case Cancel(t) => t in s.txs && !Finished(s.txs[t])
  }

  function Merge<K(==), V>(m: map<K, V>, w: map<K, Option<V>>): map<K, V> {
    map k | k in m.Keys + w.Keys && (k in w ==> w[k].Some?) :: if k in w then w[k].value else m[k]
  }

  function Install(db: Db, w: Writes): Db {
    Db(Merge(db.users, w.users), Merge(db.books, w.books), Merge(db.loans, w.loans))
  }

  /** The one change a request asks for, with the identifier and clock readings it used. */
  function OpOf(tx: Tx): Op {
    match tx.req
    case Issue(u, b) => IssueOp(u, b, tx.loanId, tx.at, tx.today + DEFAULT_LOAN_DAYS)
    case Return(l) => ReturnOp(l, tx.at)
    case CreateUser(u) => CreateUserOp(u)
    case DeleteUser(u) => DeleteUserOp(u)
    case CreateBook(b, title, copies) => CreateBookOp(b, title, copies)
    case UpdateBook(b, title, copies) => UpdateBookOp(b, title, copies)
    case DeleteBook(b) => DeleteBookOp(b)
  }

  function Do(s: State, a: Action): State
    requires Can(s, a)
  {
    match a
    case Begin(t, req) => s.(txs := s.txs[t := NewTx(req)])
    case Statement(t, now, id) =>
      var tx := Step(s.db, s.txs[t], now, id);
      s.(txs := s.txs[t := tx],
         born := if tx.req.Issue? && tx.pc.Ready? then s.born[id := NewLoan(tx)] else s.born)
    case CascadeTo(t, l) => s.(txs := s.txs[t := PutLoan(s.txs[t], l, None)])
    case EndCascade(t) => s.(txs := s.txs[t := s.txs[t].(pc := Ready)])
    case Commit(t) =>
      var tx := s.txs[t];
      State(Install(s.db, tx.writes), s.txs[t := tx.(pc := Committed, locks := {})], s.born,
            s.log + [Entry(t, OpOf(tx))])
    case Cancel(t) => s.(txs := s.txs[t := Raise(s.txs[t], Cancelled)])
  }

  predicate CanRun(s: State, actions: seq<Action>)
    decreases |actions|
  {
    actions == [] || (Can(s, actions[0]) && CanRun(Do(s, actions[0]), actions[1..]))
  }

  function Run(s: State, actions: seq<Action>): State
    requires CanRun(s, actions)
    decreases |actions|
  {
    if actions == [] then s else Run(Do(s, actions[0]), actions[1..])
  }
}
