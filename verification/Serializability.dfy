/** Every interleaving commits exactly what some serial order of whole requests would commit:
    the committed tables are always the replay of the commit log through `Apply`.
 */
module Serializability {
  import opened Common
  import opened Tables
  import opened Transactions
  import opened CommitLog

  // ---- The serial reference ----

  function Replay(db: Db, log: seq<Op>): Option<Db> {
    if log == [] then Some(db)
    else
      var before := Replay(db, log[..|log| - 1]);
      var op := log[|log| - 1];
      if before.Some? && Enabled(before.value, op) then Some(Apply(before.value, op)) else None
  }

  // ---- What holds of one transaction in flight ----

  predicate SameLoan(a: Loan, b: Loan) {
    a.(returnedAt := None) == b.(returnedAt := None)
  }

  ghost predicate BornCovers(db: Db, born: map<LoanId, Loan>) {
    forall l :: l in db.loans ==> l in born && SameLoan(db.loans[l], born[l])
  }

  predicate Untouched(tx: Tx) {
    tx.writes == NO_WRITES && tx.locks == {}
  }

  function OneFewer(book: Book): Book { book.(available := book.available - 1) }
  function OneMore(book: Book): Book { book.(available := book.available + 1) }

  predicate Incremented(db: Db, tx: Tx, u: UserId) {
    && CanIncrement(db, u)
    && tx.writes == Writes(map[u := Some(db.users[u] + 1)], map[], map[]) && tx.locks == {UserRow(u)}
  }

  /** The private rows of an issue are the committed rows it has locked, moved by one. */
  predicate IssueOk(db: Db, born: map<LoanId, Loan>, tx: Tx, u: UserId, b: BookId)
    requires tx.req == Issue(u, b)
  {
    match tx.pc
    case CheckOverdue => Untouched(tx)
    case CheckOpen => Untouched(tx)
    case IncrementUser => Untouched(tx)
    case DiagnoseUser => Untouched(tx)
    case Ready =>
      && Enabled(db, OpOf(tx)) && tx.loanId in born && born[tx.loanId] == NewLoan(tx)
      && tx.writes == Writes(map[u := Some(db.users[u] + 1)], map[b := Some(OneFewer(db.books[b]))],
                             map[tx.loanId := Some(NewLoan(tx))])
      && tx.locks == {UserRow(u), BookRow(b), OpenKey(u, b), LoanRow(tx.loanId)}
    case InsertLoan =>
      && CanIncrement(db, u) && CanTake(db, b)
      && tx.writes == Writes(map[u := Some(db.users[u] + 1)], map[b := Some(OneFewer(db.books[b]))], map[])
      && tx.locks == {UserRow(u), BookRow(b)}
    case Committed => tx.locks == {}
    case Aborted(_) => tx.locks == {}
    case TakeInstance => Incremented(db, tx, u)
    case DiagnoseBook => Incremented(db, tx, u)
    case _ => false
  }

  predicate Remembers(born: map<LoanId, Loan>, tx: Tx, l: LoanId) {
    l in born && tx.row.Some? && SameLoan(tx.row.value, born[l])
  }

  predicate Closing(db: Db, born: map<LoanId, Loan>, tx: Tx, l: LoanId) {
    && Remembers(born, tx, l) && IsOpen(db, l) && SameLoan(tx.row.value, db.loans[l])
    && db.loans[l].issuedAt <= tx.at
  }

  predicate ReturnOk(db: Db, born: map<LoanId, Loan>, tx: Tx, l: LoanId)
    requires tx.req == Return(l)
  {
    match tx.pc
    case ReadLoan => Untouched(tx)
    case MarkReturned => Untouched(tx) && Remembers(born, tx, l)
    case GiveBack =>
      && Closing(db, born, tx, l)
      && tx.writes == Writes(map[], map[], map[l := Some(db.loans[l].(returnedAt := Some(tx.at)))])
      && tx.locks == {LoanRow(l)}
    case DecrementUser =>
      && Closing(db, born, tx, l) && db.loans[l].book in db.books
      && tx.writes == Writes(map[], map[db.loans[l].book := Some(OneMore(db.books[db.loans[l].book]))],
                             map[l := Some(db.loans[l].(returnedAt := Some(tx.at)))])
      && tx.locks == {LoanRow(l), BookRow(db.loans[l].book)}
    case Ready =>
      && Closing(db, born, tx, l) && Enabled(db, OpOf(tx))
      && tx.writes == Writes(map[db.loans[l].user := Some(db.users[db.loans[l].user] - 1)],
                             map[db.loans[l].book := Some(OneMore(db.books[db.loans[l].book]))],
                             map[l := Some(db.loans[l].(returnedAt := Some(tx.at)))])
      && tx.locks == {LoanRow(l), BookRow(db.loans[l].book), UserRow(db.loans[l].user)}
    case _ => Finished(tx) && tx.locks == {}
  }

  predicate DeletesOk(db: Db, tx: Tx, own: Row) {
    && (forall l :: l in tx.writes.loans ==> IsVictim(db, tx.req, l) && tx.writes.loans[l] == None)
    && tx.locks == {own} + (set l | l in tx.writes.loans :: LoanRow(l))
    && (tx.pc.Ready? ==> forall l :: l in db.loans && IsVictim(db, tx.req, l) ==> l in tx.writes.loans)
  }

  predicate AdminOk(db: Db, tx: Tx) {
    match tx.pc
    case OneRow => Untouched(tx)
    case Cascade =>
      (match tx.req
       case DeleteUser(u) => u in db.users && tx.writes.users == map[u := None] && tx.writes.books == map[]
                             && DeletesOk(db, tx, UserRow(u))
       case DeleteBook(b) => b in db.books && tx.writes.books == map[b := None] && tx.writes.users == map[]
                             && DeletesOk(db, tx, BookRow(b))
       case _ => false)
    case Ready =>
      (match tx.req
       case CreateUser(u) => u !in db.users && tx.writes == Writes(map[u := Some(0)], map[], map[])
                             && tx.locks == {UserRow(u)}
       case DeleteUser(u) => u in db.users && tx.writes.users == map[u := None] && tx.writes.books == map[]
                             && DeletesOk(db, tx, UserRow(u))
       case CreateBook(b, title, copies) =>
         b !in db.books && tx.writes == Writes(map[], map[b := Some(Book(title, copies))], map[])
         && tx.locks == {BookRow(b)}
       case UpdateBook(b, title, copies) =>
         b in db.books && tx.writes == Writes(map[], map[b := Some(Updated(db.books[b], title, copies))], map[])
         && tx.locks == {BookRow(b)}
       case DeleteBook(b) => b in db.books && tx.writes.books == map[b := None] && tx.writes.users == map[]
                             && DeletesOk(db, tx, BookRow(b))
       case _ => false)
    case _ => Finished(tx) && tx.locks == {}
  }

  predicate TxOk(db: Db, born: map<LoanId, Loan>, tx: Tx) {
    match tx.req
    case Issue(u, b) => IssueOk(db, born, tx, u, b)
    case Return(l) => ReturnOk(db, born, tx, l)
    case _ => AdminOk(db, tx)
  }

  /** Only loans that exist or have existed are ever locked. */
  lemma BornLocks(db: Db, born: map<LoanId, Loan>, tx: Tx, l: LoanId)
    requires BornCovers(db, born) && TxOk(db, born, tx) && LoanRow(l) in tx.locks
    ensures l in born
  {
  }

  // ---- One statement keeps it ----

  lemma IssueStepOk(db: Db, born: map<LoanId, Loan>, tx: Tx, now: int, id: LoanId)
    requires TxOk(db, born, tx) && HasStatement(tx) && tx.req.Issue?
    requires BornCovers(db, born) && id !in born
    ensures var tx' := Step(db, tx, now, id);
            var born' := if tx'.pc.Ready? then born[id := NewLoan(tx')] else born;
            TxOk(db, born', tx') && tx'.req == tx.req
    ensures var tx' := Step(db, tx, now, id);
            tx'.locks <= tx.locks + Needed(db, tx, now) + {LoanRow(id)}
  {
    hide ReturnOk, AdminOk, ReturnStep, AdminStep, HasOverdue;
  }

  /** A statement waits only for rows it then locks; the insert of a loan also waits for the open loan
      of the same pair, and raises if that is still open. */
  lemma NeededIsTaken(db: Db, born: map<LoanId, Loan>, tx: Tx, now: int, id: LoanId, r: Row)
    requires TxOk(db, born, tx) && HasStatement(tx) && r in Needed(db, tx, now)
    ensures var tx' := Step(db, tx, now, id);
            || r in tx'.locks
            || (tx'.pc.Aborted? && tx.pc.InsertLoan? && tx.req.Issue? && HasOpen(db, tx.req.user, tx.req.book))
            || (tx'.pc.Aborted? && tx.req.Return? && tx.pc.MarkReturned? && now < db.loans[tx.req.loan].issuedAt)
            || (tx'.pc.Aborted? && (tx.req.CreateUser? || tx.req.CreateBook?))
  {
  }

  /** The two row updates of a return can neither miss their row nor be suppressed. */
  lemma ReturnNeverStumbles(db: Db, born: map<LoanId, Loan>, tx: Tx)
    requires Valid(db) && tx.req.Return? && TxOk(db, born, tx)
    ensures tx.pc.GiveBack? ==> tx.row.Some? && tx.row.value.book in db.books
    ensures tx.pc.DecrementUser? ==> tx.row.Some? && CanDecrement(db, tx.row.value.user)
  {
    if tx.pc.DecrementUser? {
      assert tx.req.loan in OpenOfUser(db, tx.row.value.user);
      SubsetSize({tx.req.loan}, OpenOfUser(db, tx.row.value.user));
    }
  }

  lemma CloseStepOk(db: Db, born: map<LoanId, Loan>, tx: Tx, now: int)
    requires TxOk(db, born, tx) && tx.req.Return? && (tx.pc.ReadLoan? || tx.pc.MarkReturned?)
    requires BornCovers(db, born)
    ensures var tx' := ReturnStep(db, tx, tx.req.loan, now);
            TxOk(db, born, tx') && tx'.req == tx.req
            && tx'.locks <= tx.locks + Needed(db, tx, now)
  {
  }

  lemma GiveBackStepOk(db: Db, born: map<LoanId, Loan>, tx: Tx, now: int)
    requires Valid(db) && TxOk(db, born, tx) && tx.req.Return? && tx.pc.GiveBack?
    ensures var tx' := ReturnStep(db, tx, tx.req.loan, now);
            TxOk(db, born, tx') && tx'.pc.DecrementUser? && tx'.req == tx.req
            && tx'.locks <= tx.locks + Needed(db, tx, now)
  {
    ReturnNeverStumbles(db, born, tx);
  }

  lemma DecrementStepOk(db: Db, born: map<LoanId, Loan>, tx: Tx, now: int)
    requires Valid(db) && TxOk(db, born, tx) && tx.req.Return? && tx.pc.DecrementUser?
    ensures var tx' := ReturnStep(db, tx, tx.req.loan, now);
            TxOk(db, born, tx') && tx'.pc.Ready? && tx'.req == tx.req
            && tx'.locks <= tx.locks + Needed(db, tx, now)
  {
    ReturnNeverStumbles(db, born, tx);
  }

  lemma AdminStepOk(db: Db, born: map<LoanId, Loan>, tx: Tx, now: int, id: LoanId)
    requires TxOk(db, born, tx) && HasStatement(tx) && !tx.req.Issue? && !tx.req.Return?
    ensures var tx' := Step(db, tx, now, id);
            TxOk(db, born, tx') && tx'.req == tx.req
            && tx'.locks <= tx.locks + Needed(db, tx, now)
  {
    hide IssueOk, ReturnOk, IssueStep, ReturnStep, OpOf;
    assert Untouched(tx);
  }

  lemma ReturnStepOk(db: Db, born: map<LoanId, Loan>, tx: Tx, now: int, id: LoanId)
    requires Valid(db) && TxOk(db, born, tx) && HasStatement(tx) && tx.req.Return? && BornCovers(db, born)
    ensures var tx' := Step(db, tx, now, id);
            TxOk(db, born, tx') && tx'.req == tx.req
            && tx'.locks <= tx.locks + Needed(db, tx, now)
  {
    hide IssueOk, AdminOk, IssueStep, AdminStep, ReturnStep, Needed, Valid;
    if tx.pc.GiveBack? { GiveBackStepOk(db, born, tx, now); }
    else if tx.pc.DecrementUser? { DecrementStepOk(db, born, tx, now); }
    else { CloseStepOk(db, born, tx, now); }
  }

  lemma StepOk(db: Db, born: map<LoanId, Loan>, tx: Tx, now: int, id: LoanId)
    requires Valid(db) && TxOk(db, born, tx) && HasStatement(tx) && BornCovers(db, born) && id !in born
    ensures var tx' := Step(db, tx, now, id);
            var born' := if tx'.req.Issue? && tx'.pc.Ready? then born[id := NewLoan(tx')] else born;
            TxOk(db, born', tx') && tx'.req == tx.req
            && tx'.locks <= tx.locks + Needed(db, tx, now) + {LoanRow(id)}
  {
    hide TxOk, Step, Needed, Valid;
    if tx.req.Issue? { IssueStepOk(db, born, tx, now, id); }
    else if tx.req.Return? { ReturnStepOk(db, born, tx, now, id); }
    else { AdminStepOk(db, born, tx, now, id); }
  }

  /** A statement runs only when no other transaction holds a row it locks; and the insert of a loan
      only when none holds an open loan of the same pair, which it might be closing. */
  lemma StatementsWait(s: State, t: TxId, now: int, id: LoanId, r: Row)
    requires t in s.txs && BornCovers(s.db, s.born) && Valid(s.db) && TxOk(s.db, s.born, s.txs[t])
    requires Can(s, Statement(t, now, id)) && LockedByOther(s, t, r) && r != LoanRow(id)
    ensures r in Step(s.db, s.txs[t], now, id).locks ==> r in s.txs[t].locks
    ensures s.txs[t].req.Issue? && s.txs[t].pc.InsertLoan? && now < (s.txs[t].today + 15) * 86400 ==>
              forall l :: r == LoanRow(l) && l in s.db.loans && s.db.loans[l].returnedAt == None ==>
                !(s.db.loans[l].user == s.txs[t].req.user && s.db.loans[l].book == s.txs[t].req.book)
  {
    StepOk(s.db, s.born, s.txs[t], now, id);
    hide TxOk, Step, Valid, BornCovers;
  }

  /** The scheduler can abort any unfinished transaction; nothing of it is left. */
  lemma CancelLeavesNothing(s: State, t: TxId)
    requires t in s.txs && !Finished(s.txs[t])
    ensures Can(s, Cancel(t))
    ensures var s' := Do(s, Cancel(t));
            && s'.db == s.db && s'.log == s.log && s'.txs.Keys == s.txs.Keys && s'.txs[t].locks == {}
            && s'.txs[t].pc == Aborted(Cancelled) && s'.txs[t].writes == NO_WRITES
            && forall t' :: t' in s.txs && t' != t ==> s'.txs[t'] == s.txs[t']
  {
  }

  // ---- A commit installs exactly the requested change ----

  lemma MergeOne<K, V>(m: map<K, V>, k: K, v: V)
    ensures Merge(m, map[]) == m
    ensures Merge(m, map[k := Some(v)]) == m[k := v]
    ensures Merge(m, map[k := None]) == m - {k}
  {
  }

  lemma IssueCommit(db: Db, born: map<LoanId, Loan>, tx: Tx)
    requires TxOk(db, born, tx) && tx.pc.Ready? && tx.req.Issue?
    ensures Enabled(db, OpOf(tx)) && Install(db, tx.writes) == Apply(db, OpOf(tx))
  {
  }

  lemma ReturnCommit(db: Db, born: map<LoanId, Loan>, tx: Tx)
    requires TxOk(db, born, tx) && tx.pc.Ready? && tx.req.Return?
    ensures Enabled(db, OpOf(tx)) && Install(db, tx.writes) == Apply(db, OpOf(tx))
  {
  }

  lemma MergeDeletes<K, V>(m: map<K, V>, w: map<K, Option<V>>)
    requires forall k :: k in w ==> w[k] == None
    ensures Merge(m, w) == map k | k in m && k !in w :: m[k]
  {
  }

  lemma DeleteCommit(db: Db, born: map<LoanId, Loan>, tx: Tx)
    requires TxOk(db, born, tx) && tx.pc.Ready? && (tx.req.DeleteUser? || tx.req.DeleteBook?)
    ensures Enabled(db, OpOf(tx)) && Install(db, tx.writes) == Apply(db, OpOf(tx))
  {
    hide IssueOk, ReturnOk, Merge;
    var u: UserId := if tx.req.DeleteUser? then tx.req.user else 0;
    var b: BookId := if tx.req.DeleteBook? then tx.req.book else 0;
    MergeOne(db.users, u, 0);
    MergeOne(db.books, b, Book("", 0));
    MergeDeletes(db.loans, tx.writes.loans);
    var end := Apply(db, OpOf(tx));
    assert end.loans == Merge(db.loans, tx.writes.loans);
    assert end.users == Merge(db.users, tx.writes.users);
    assert end.books == Merge(db.books, tx.writes.books);
  }

  lemma PutCommit(db: Db, born: map<LoanId, Loan>, tx: Tx)
    requires TxOk(db, born, tx) && tx.pc.Ready? && (tx.req.CreateUser? || tx.req.CreateBook? || tx.req.UpdateBook?)
    ensures Enabled(db, OpOf(tx)) && Install(db, tx.writes) == Apply(db, OpOf(tx))
  {
    hide IssueOk, ReturnOk, Merge;
    MergeOne(db.loans, 0, Loan(0, 0, 0, 0, None));
    match tx.req
    case CreateUser(u) => MergeOne(db.users, u, 0); MergeOne(db.books, 0, Book("", 0));
    case CreateBook(b, title, copies) => MergeOne(db.books, b, Book(title, copies)); MergeOne(db.users, 0, 0);
    case UpdateBook(b, title, copies) =>
      MergeOne(db.books, b, Updated(db.books[b], title, copies));
      MergeOne(db.users, 0, 0);
  }

  lemma CommitApplies(db: Db, born: map<LoanId, Loan>, tx: Tx)
    requires TxOk(db, born, tx) && tx.pc.Ready?
    ensures Enabled(db, OpOf(tx)) && Install(db, tx.writes) == Apply(db, OpOf(tx))
  {
    hide IssueOk, ReturnOk, AdminOk, Enabled, Apply, OpOf, Install;
    if tx.req.Issue? { IssueCommit(db, born, tx); }
    else if tx.req.Return? { ReturnCommit(db, born, tx); }
    else if tx.req.DeleteUser? || tx.req.DeleteBook? { DeleteCommit(db, born, tx); }
    else { PutCommit(db, born, tx); }
  }

  // ---- What a held lock protects against the commits of others ----

  ghost predicate Agree(db: Db, db': Db, r: Row) {
    match r
    case UserRow(u) =>
      && (u in db.users <==> u in db'.users) && (u in db.users ==> db.users[u] == db'.users[u])
      && forall l :: l in db'.loans && db'.loans[l].user == u ==> l in db.loans
    case BookRow(b) =>
      && (b in db.books <==> b in db'.books) && (b in db.books ==> db.books[b] == db'.books[b])
      && forall l :: l in db'.loans && db'.loans[l].book == b ==> l in db.loans
    case LoanRow(l) =>
      (l in db.loans <==> l in db'.loans) && (l in db.loans ==> db.loans[l] == db'.loans[l])
    case OpenKey(u, b) => OpenOf(db', u, b) <= OpenOf(db, u, b)
  }

  lemma IssueMovesItsRows(db: Db, born: map<LoanId, Loan>, tx: Tx, r: Row)
    requires TxOk(db, born, tx) && tx.pc.Ready? && r !in tx.locks && Enabled(db, OpOf(tx)) && tx.req.Issue?
    ensures Agree(db, Apply(db, OpOf(tx)), r)
  {
  }

  lemma ReturnMovesItsRows(db: Db, born: map<LoanId, Loan>, tx: Tx, r: Row)
    requires TxOk(db, born, tx) && tx.pc.Ready? && r !in tx.locks && Enabled(db, OpOf(tx)) && tx.req.Return?
    ensures Agree(db, Apply(db, OpOf(tx)), r)
  {
  }

  lemma AdminMovesItsRows(db: Db, born: map<LoanId, Loan>, tx: Tx, r: Row)
    requires TxOk(db, born, tx) && tx.pc.Ready? && r !in tx.locks && Enabled(db, OpOf(tx))
    requires !tx.req.Issue? && !tx.req.Return?
    ensures Agree(db, Apply(db, OpOf(tx)), r)
  {
  }

  /** A commit changes nothing about a row that its transaction has not locked. */
  lemma UnlockedRowsMayChange(db: Db, born: map<LoanId, Loan>, tx: Tx, r: Row)
    requires TxOk(db, born, tx) && tx.pc.Ready? && r !in tx.locks
    requires Enabled(db, OpOf(tx))
    ensures Agree(db, Apply(db, OpOf(tx)), r)
  {
    hide TxOk, Enabled, Apply, Agree;
    if tx.req.Issue? { IssueMovesItsRows(db, born, tx, r); }
    else if tx.req.Return? { ReturnMovesItsRows(db, born, tx, r); }
    else { AdminMovesItsRows(db, born, tx, r); }
  }

  /** A loan present before and after keeps its user, book and dates. */
  ghost predicate LoansPersist(db: Db, db': Db) {
    forall l :: l in db.loans && l in db'.loans ==> SameLoan(db.loans[l], db'.loans[l])
  }

  lemma CommitKeepsLoans(db: Db, born: map<LoanId, Loan>, tx: Tx)
    requires TxOk(db, born, tx) && tx.pc.Ready? && Enabled(db, OpOf(tx)) && BornCovers(db, born)
    ensures LoansPersist(db, Apply(db, OpOf(tx))) && BornCovers(Apply(db, OpOf(tx)), born)
  {
  }

  lemma IssueStable(db: Db, db': Db, born: map<LoanId, Loan>, born': map<LoanId, Loan>, tx: Tx)
    requires tx.req.Issue? && TxOk(db, born, tx)
    requires forall l :: l in born ==> l in born' && born'[l] == born[l]
    requires forall r :: r in tx.locks ==> Agree(db, db', r)
    ensures TxOk(db', born', tx)
  {
  }

  lemma ReturnStable(db: Db, db': Db, born: map<LoanId, Loan>, born': map<LoanId, Loan>, tx: Tx)
    requires tx.req.Return? && TxOk(db, born, tx)
    requires forall l :: l in born ==> l in born' && born'[l] == born[l]
    requires forall r :: r in tx.locks ==> Agree(db, db', r)
    ensures TxOk(db', born', tx)
  {
  }

  lemma DeletesStable(db: Db, db': Db, tx: Tx, own: Row)
    requires (tx.req.DeleteUser? && own == UserRow(tx.req.user)) || (tx.req.DeleteBook? && own == BookRow(tx.req.book))
    requires DeletesOk(db, tx, own) && LoansPersist(db, db')
    requires forall r :: r in tx.locks ==> Agree(db, db', r)
    ensures DeletesOk(db', tx, own)
  {
    assert Agree(db, db', own);
    forall l | l in tx.writes.loans ensures IsVictim(db', tx.req, l) {
      assert Agree(db, db', LoanRow(l));
    }
    if tx.pc.Ready? {
      forall l | l in db'.loans && IsVictim(db', tx.req, l) ensures l in tx.writes.loans {
        assert IsVictim(db, tx.req, l);
      }
    }
  }

  lemma AdminStable(db: Db, db': Db, born: map<LoanId, Loan>, born': map<LoanId, Loan>, tx: Tx)
    requires !tx.req.Issue? && !tx.req.Return? && TxOk(db, born, tx) && LoansPersist(db, db')
    requires forall r :: r in tx.locks ==> Agree(db, db', r)
    ensures TxOk(db', born', tx)
  {
    if tx.pc.Cascade? || tx.pc.Ready? {
      match tx.req
      case CreateUser(u) => assert Agree(db, db', UserRow(u));
      case DeleteUser(u) => assert Agree(db, db', UserRow(u)); DeletesStable(db, db', tx, UserRow(u));
      case CreateBook(b, _, _) => assert Agree(db, db', BookRow(b));
      case UpdateBook(b, _, _) => assert Agree(db, db', BookRow(b));
      case DeleteBook(b) => assert Agree(db, db', BookRow(b)); DeletesStable(db, db', tx, BookRow(b));
    }
  }

  lemma TxStable(db: Db, db': Db, born: map<LoanId, Loan>, born': map<LoanId, Loan>, tx: Tx)
    requires TxOk(db, born, tx) && LoansPersist(db, db')
    requires forall l :: l in born ==> l in born' && born'[l] == born[l]
    requires forall r :: r in tx.locks ==> Agree(db, db', r)
    ensures TxOk(db', born', tx)
  {
    if tx.req.Issue? { IssueStable(db, db', born, born', tx); }
    else if tx.req.Return? { ReturnStable(db, db', born, born', tx); }
    else { AdminStable(db, db', born, born', tx); }
  }

  // ---- The invariant of the whole machine ----

  ghost predicate Disjoint(txs: map<TxId, Tx>) {
    forall t, t' :: t in txs && t' in txs && t != t' ==> txs[t].locks !! txs[t'].locks
  }

  function CommittedOps(txs: map<TxId, Tx>): map<TxId, Op> {
    map t | t in txs && txs[t].pc.Committed? :: OpOf(txs[t])
  }

  /** The log lists each committed transaction once, with the change it asked for. */
  ghost predicate Logged(s: State) {
    Lists(s.log, CommittedOps(s.txs))
  }

  ghost predicate Inv(s: State) {
    && Valid(s.db) && BornCovers(s.db, s.born) && Disjoint(s.txs)
    && (forall t :: t in s.txs ==> TxOk(s.db, s.born, s.txs[t]))
  }

  /** No transaction has begun yet; the tables may hold anything valid. */
  ghost predicate Init(s: State) {
    Valid(s.db) && BornCovers(s.db, s.born) && s.txs == map[] && s.log == []
  }

  lemma StatementKeepsInv(s: State, t: TxId, now: int, id: LoanId)
    requires Inv(s) && Can(s, Statement(t, now, id))
    ensures Inv(Do(s, Statement(t, now, id)))
  {
    hide TxOk, Step, Needed, Valid;
    var tx := s.txs[t];
    var s' := Do(s, Statement(t, now, id));
    StepOk(s.db, s.born, tx, now, id);
    forall t' | t' in s.txs && t' != t
      ensures TxOk(s.db, s'.born, s.txs[t']) && s.txs[t'].locks !! s'.txs[t].locks
    {
      TxStable(s.db, s.db, s.born, s'.born, s.txs[t']);
      forall r | r in s'.txs[t].locks ensures r !in s.txs[t'].locks {
        if r == LoanRow(id) && r in s.txs[t'].locks { BornLocks(s.db, s.born, s.txs[t'], id); }
        assert r in Needed(s.db, tx, now) ==> !LockedByOther(s, t, r);
      }
    }
  }

  lemma OpOfCommitted(db: Db, born: map<LoanId, Loan>, tx: Tx)
    ensures OpOf(tx.(pc := Committed, locks := {})) == OpOf(tx)
    ensures TxOk(db, born, tx.(pc := Committed, locks := {}))
  {
  }

  lemma CommitKeepsInv(s: State, t: TxId)
    requires Inv(s) && Can(s, Commit(t))
    ensures Inv(Do(s, Commit(t)))
    ensures Enabled(s.db, OpOf(s.txs[t])) && Do(s, Commit(t)).db == Apply(s.db, OpOf(s.txs[t]))
  {
    hide TxOk, Enabled, Apply, OpOf, Agree, Valid;
    var tx := s.txs[t];
    var s' := Do(s, Commit(t));
    CommitApplies(s.db, s.born, tx);
    CommitKeepsLoans(s.db, s.born, tx);
    OpOfCommitted(s'.db, s.born, tx);
    ApplyKeepsValid(s.db, OpOf(tx));
    forall t' | t' in s.txs && t' != t ensures TxOk(s'.db, s.born, s.txs[t']) {
      forall r | r in s.txs[t'].locks ensures Agree(s.db, s'.db, r) {
        UnlockedRowsMayChange(s.db, s.born, tx, r);
      }
      TxStable(s.db, s'.db, s.born, s.born, s.txs[t']);
    }
  }

  lemma CascadeOk(db: Db, born: map<LoanId, Loan>, tx: Tx, l: LoanId)
    requires TxOk(db, born, tx) && tx.pc.Cascade?
    ensures IsVictim(db, tx.req, l) ==> TxOk(db, born, PutLoan(tx, l, None))
    ensures (forall k :: k in db.loans && IsVictim(db, tx.req, k) ==> k in tx.writes.loans)
            ==> TxOk(db, born, tx.(pc := Ready))
  {
    assert tx.req.DeleteUser? || tx.req.DeleteBook?;
    hide IssueOk, ReturnOk, OpOf;
  }

  lemma CascadeKeepsInv(s: State, a: Action)
    requires Inv(s) && Can(s, a) && (a.CascadeTo? || a.EndCascade?)
    ensures Inv(Do(s, a))
  {
    hide TxOk, Valid, IsVictim;
    CascadeOk(s.db, s.born, s.txs[a.t], if a.CascadeTo? then a.victim else 0);
    if a.CascadeTo? { assert !LockedByOther(s, a.t, LoanRow(a.victim)); }
  }

  lemma DoKeepsInv(s: State, a: Action)
    requires Inv(s) && Can(s, a)
    ensures Inv(Do(s, a))
  {
    hide Valid;
    match a
    case Begin(t, req) =>
    case Statement(t, now, id) => StatementKeepsInv(s, t, now, id);
    case CascadeTo(t, l) => CascadeKeepsInv(s, a);
    case EndCascade(t) => CascadeKeepsInv(s, a);
    case Commit(t) => CommitKeepsInv(s, t);
    case Cancel(t) =>
  }

  lemma StepNeverCommits(db: Db, tx: Tx, now: int, id: LoanId)
    requires HasStatement(tx)
    ensures !Step(db, tx, now, id).pc.Committed?
  {
  }

  lemma DoKeepsLogged(s: State, a: Action)
    requires Logged(s) && Can(s, a)
    ensures Logged(Do(s, a))
  {
    hide Lists, Step, Install, OpOf, LockedByOther, IsVictim, Needed, NewLoan;
    var s' := Do(s, a);
    if a.Commit? {
      OpOfCommitted(s.db, s.born, s.txs[a.t]);
      assert CommittedOps(s'.txs) == CommittedOps(s.txs)[a.t := OpOf(s.txs[a.t])];
      ListsOneMore(s.log, CommittedOps(s.txs), a.t, OpOf(s.txs[a.t]));
    } else {
      if a.Statement? { StepNeverCommits(s.db, s.txs[a.t], a.now, a.id); }
      assert CommittedOps(s'.txs) == CommittedOps(s.txs);
    }
  }

  lemma DoExtendsReplay(db: Db, s: State, a: Action)
    requires Inv(s) && Can(s, a) && Replay(db, Ops(s.log)) == Some(s.db)
    ensures Replay(db, Ops(Do(s, a).log)) == Some(Do(s, a).db)
  {
    hide Inv, Step, OpOf, Enabled, Apply, Install;
    if a.Commit? {
      CommitKeepsInv(s, a.t);
      var ops := Ops(Do(s, a).log);
      assert ops[..|ops| - 1] == Ops(s.log);
    }
  }

  lemma {:induction false} RunReplays(db: Db, s: State, actions: seq<Action>)
    requires Inv(s) && Logged(s) && CanRun(s, actions) && Replay(db, Ops(s.log)) == Some(s.db)
    ensures var end := Run(s, actions);
            Inv(end) && Logged(end) && Replay(db, Ops(end.log)) == Some(end.db)
    decreases |actions|
  {
    if actions != [] {
      DoKeepsInv(s, actions[0]);
      DoKeepsLogged(s, actions[0]);
      DoExtendsReplay(db, s, actions[0]);
      RunReplays(db, Do(s, actions[0]), actions[1..]);
    }
  }

  /** Serializability. After any interleaving the committed tables are those of the committed
      requests run whole, one after the other, in commit order; a transaction that raised or was
      cancelled is not among them; and the tables satisfy the invariant. */
  lemma Serializable(s: State, actions: seq<Action>)
    requires Init(s) && CanRun(s, actions)
    ensures var end := Run(s, actions);
            Replay(s.db, Ops(end.log)) == Some(end.db) && Logged(end) && Valid(end.db) && Inv(end)
  {
    RunReplays(s.db, s, actions);
  }
}
