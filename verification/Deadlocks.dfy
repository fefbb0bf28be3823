/** Which kinds of request can really deadlock: reachable wait cycles for every clash. */
module Deadlocks {
  import opened Common
  import opened Tables
  import opened Transactions
  import opened CommitLog
  import opened Serializability
  import opened Progress
  import opened Reachability

  /** One user without loans, one book with two copies. */
  const TWO_COPIES := State(Db(map[0 := 0], map[0 := Book("", 2)], map[]), map[], map[], [])

  const CHECKED := NewTx(Issue(0, 0)).(pc := IncrementUser)

  const LENT := Loan(0, 0, 0, 14, None)

  /** A first issue passes its two checks; a second one of the same pair starts. */
  lemma FirstIssueChecks() returns (s: State)
    ensures Reaches(TWO_COPIES, s)
    ensures s == TWO_COPIES.(txs := map[0 := CHECKED, 1 := CHECKED])
  {
    s := TWO_COPIES;
    assert CanRun(s, []) && Run(s, []) == s;
    hide Reaches, ReturnStep, AdminStep, IsVictim, Install, OpOf;
    s := Next(TWO_COPIES, s, Begin(0, Issue(0, 0)));
    s := Next(TWO_COPIES, s, Statement(0, 0, 0));
    s := Next(TWO_COPIES, s, Statement(0, 0, 0));
    s := Next(TWO_COPIES, s, Begin(1, Issue(0, 0)));
    s := Next(TWO_COPIES, s, Statement(1, 0, 0));
    s := Next(TWO_COPIES, s, Statement(1, 0, 0));
  }

  const ONE_LENT := Db(map[0 := 1], map[0 := Book("", 1)], map[0 := LENT])

  const ISSUED := NewTx(Issue(0, 0)).(pc := Ready,
    writes := Writes(map[0 := Some(1)], map[0 := Some(Book("", 1))], map[0 := Some(LENT)]),
    locks := {UserRow(0), BookRow(0), OpenKey(0, 0), LoanRow(0)})

  const TAKEN := NewTx(Issue(0, 0)).(pc := InsertLoan,
    writes := Writes(map[0 := Some(1)], map[0 := Some(Book("", 1))], map[]), locks := {UserRow(0), BookRow(0)})

  lemma SecondIssueTakes() returns (s: State)
    ensures Reaches(TWO_COPIES, s)
    ensures s == TWO_COPIES.(txs := map[0 := CHECKED, 1 := TAKEN])
  {
    hide Reaches, ReturnStep, AdminStep, HasOverdue, HasOpen, IsVictim, Install, OpOf;
    s := FirstIssueChecks();
    s := Next(TWO_COPIES, s, Statement(1, 0, 0));
    s := Next(TWO_COPIES, s, Statement(1, 0, 0));
    assert s.txs[1].locks == TAKEN.locks && s.txs[1].writes == TAKEN.writes;
    assert s.txs == map[0 := CHECKED, 1 := TAKEN];
  }

  lemma SecondIssueWrites() returns (s: State)
    ensures Reaches(TWO_COPIES, s)
    ensures s == TWO_COPIES.(txs := map[0 := CHECKED, 1 := ISSUED], born := map[0 := LENT])
  {
    hide Reaches, ReturnStep, AdminStep, HasOverdue, IsVictim, Install, OpOf;
    s := SecondIssueTakes();
    assert OpenOf(s.db, 0, 0) == {};
    s := Next(TWO_COPIES, s, Statement(1, 0, 0));
    assert s.txs[1].locks == ISSUED.locks && s.txs[1].writes == ISSUED.writes;
    assert s.txs == map[0 := CHECKED, 1 := ISSUED];
  }

  /** The second issue is served to its end. */
  lemma SecondIssueCommits() returns (s: State)
    ensures Reaches(TWO_COPIES, s) && s.db == ONE_LENT && s.born == map[0 := LENT]
    ensures s.txs.Keys == {0, 1} && s.txs[0] == CHECKED && s.txs[1].locks == {}
  {
    hide Reaches;
    s := SecondIssueWrites();
    MergeOne(s.db.users, 0, 1);
    MergeOne(s.db.books, 0, Book("", 1));
    MergeOne(s.db.loans, 0, LENT);
    hide Merge;
    s := Next(TWO_COPIES, s, Commit(1));
  }

  lemma ReturnMarks() returns (s: State)
    ensures Reaches(TWO_COPIES, s) && s.db == ONE_LENT && s.born == map[0 := LENT]
    ensures s.txs.Keys == {0, 1, 2} && s.txs[0] == CHECKED && s.txs[1].locks == {} && s.txs[2].req == Return(0)
            && s.txs[2].pc == GiveBack && s.txs[2].row == Some(LENT) && s.txs[2].locks == {LoanRow(0)}
  {
    hide Reaches, IssueStep, OpOf, Install;
    s := SecondIssueCommits();
    s := Next(TWO_COPIES, s, Begin(2, Return(0)));
    s := Next(TWO_COPIES, s, Statement(2, 0, 1));
    s := Next(TWO_COPIES, s, Statement(2, 0, 1));
  }

  /** The new loan is being returned and has its book locked; the first issue locks its user. */
  lemma ReturnMeetsIssue() returns (s: State)
    ensures Reaches(TWO_COPIES, s) && s.db == ONE_LENT && s.txs.Keys == {0, 1, 2}
    ensures s.txs[0].req.Issue? && s.txs[0].pc == TakeInstance && UserRow(0) in s.txs[0].locks && s.txs[0].req.book == 0
    ensures s.txs[2].req.Return? && s.txs[2].pc == DecrementUser && BookRow(0) in s.txs[2].locks
            && s.txs[2].row == Some(LENT)
  {
    hide Reaches, OpOf, Install;
    s := ReturnMarks();
    s := Next(TWO_COPIES, s, Statement(2, 0, 1));
    s := Next(TWO_COPIES, s, Statement(0, 0, 1));
  }

  /** An issue and a return can deadlock: the condition of SomeoneProceeds cannot be dropped. */
  lemma IssueAndReturnCanDeadlock() returns (s: State)
    ensures Init(TWO_COPIES) && Reaches(TWO_COPIES, s) && IsCycle(s, [0, 2])
    ensures s.txs[0].req.Issue? && s.txs[2].req.Return?
  {
    assert OpenOfUser(TWO_COPIES.db, 0) == {};
    s := ReturnMeetsIssue();
    assert BookRow(0) in Needed(s.db, s.txs[0], 0) && UserRow(0) in Needed(s.db, s.txs[2], 0);
    assert Wants(s.db, s.txs[0], BookRow(0)) && Wants(s.db, s.txs[2], UserRow(0));
    assert WaitsFor(s, 0, 2) && WaitsFor(s, 2, 0);
  }

  /** One user with an open and a returned loan of one book. */
  const TWO_LOANS := State(
    Db(map[0 := 1], map[0 := Book("", 0)], map[0 := LENT, 1 := LENT.(returnedAt := Some(0))]),
    map[], map[0 := LENT, 1 := LENT], [])

  const USER_DELETED := NewTx(DeleteUser(0)).(pc := Cascade, writes := NO_WRITES.(users := map[0 := None]),
                                             locks := {UserRow(0)})
  const BOOK_DELETED := NewTx(DeleteBook(0)).(pc := Cascade, writes := NO_WRITES.(books := map[0 := None]),
                                             locks := {BookRow(0)})

  lemma TwoLoansAreValid()
    ensures Init(TWO_LOANS)
  {
    assert OpenOfUser(TWO_LOANS.db, 0) == {0};
  }

  lemma BothDelete() returns (s: State)
    ensures Reaches(TWO_LOANS, s) && s == TWO_LOANS.(txs := map[0 := USER_DELETED, 1 := BOOK_DELETED])
  {
    s := TWO_LOANS;
    assert CanRun(s, []) && Run(s, []) == s;
    hide Reaches, IssueStep, ReturnStep, Install, OpOf, IsVictim;
    s := Next(TWO_LOANS, s, Begin(0, DeleteUser(0)));
    s := Next(TWO_LOANS, s, Statement(0, 0, 2));
    assert s.txs[0].locks == USER_DELETED.locks && s.txs[0].writes == USER_DELETED.writes;
    assert s == TWO_LOANS.(txs := map[0 := USER_DELETED]);
    s := Next(TWO_LOANS, s, Begin(1, DeleteBook(0)));
    s := Next(TWO_LOANS, s, Statement(1, 0, 2));
    assert s.txs[1].locks == BOOK_DELETED.locks && s.txs[1].writes == BOOK_DELETED.writes;
    assert s.txs == map[0 := USER_DELETED, 1 := BOOK_DELETED];
  }

  /** So can the deletion of a user and the deletion of a book, over two loans they share. */
  lemma DeletionsCanDeadlock() returns (s: State)
    ensures Init(TWO_LOANS) && Reaches(TWO_LOANS, s) && IsCycle(s, [0, 1])
    ensures s.txs[0].req.DeleteUser? && s.txs[1].req.DeleteBook?
  {
    TwoLoansAreValid();
    s := BothDelete();
    hide Reaches, Step, Install, OpOf, Needed, Init;
    s := Next(TWO_LOANS, s, CascadeTo(0, 0));
    s := Next(TWO_LOANS, s, CascadeTo(1, 1));
    assert Wants(s.db, s.txs[0], LoanRow(1)) && Wants(s.db, s.txs[1], LoanRow(0));
    assert WaitsFor(s, 0, 1) && WaitsFor(s, 1, 0);
  }

  /** A return has marked the open loan of one user and one book. */
  const LENT_STATE := State(ONE_LENT, map[], map[0 := LENT], [])

  const MARKED := NewTx(Return(0)).(pc := GiveBack, row := Some(LENT), at := 0,
    writes := NO_WRITES.(loans := map[0 := Some(LENT.(returnedAt := Some(0)))]), locks := {LoanRow(0)})

  lemma LentStateIsValid()
    ensures Init(LENT_STATE)
  {
    assert OpenOfUser(ONE_LENT, 0) == {0};
  }

  lemma ReturnStarts() returns (s: State)
    ensures Reaches(LENT_STATE, s) && s == LENT_STATE.(txs := map[0 := MARKED])
  {
    s := LENT_STATE;
    ReachesItself(s);
    hide Reaches, IssueStep, AdminStep, Install, OpOf, IsVictim, Init;
    s := Next(LENT_STATE, s, Begin(0, Return(0)));
    s := Next(LENT_STATE, s, Statement(0, 0, 1));
    s := Next(LENT_STATE, s, Statement(0, 0, 1));
    assert s.txs[0].locks == MARKED.locks && s.txs[0].writes == MARKED.writes;
    assert s.txs == map[0 := MARKED];
  }

  /** A return and the deletion of its book: the one waits for the book, the other for the loan. */
  lemma ReturnAndBookDeletionCanDeadlock() returns (s: State)
    ensures Init(LENT_STATE) && Reaches(LENT_STATE, s) && IsCycle(s, [0, 1])
    ensures s.txs[0].req.Return? && s.txs[1].req.DeleteBook?
  {
    LentStateIsValid();
    s := ReturnStarts();
    hide Reaches, IssueStep, Install, OpOf, Init;
    s := Next(LENT_STATE, s, Begin(1, DeleteBook(0)));
    s := Next(LENT_STATE, s, Statement(1, 0, 1));
    assert BookRow(0) in Needed(s.db, s.txs[0], 0);
    assert Wants(s.db, s.txs[0], BookRow(0)) && Wants(s.db, s.txs[1], LoanRow(0));
    assert WaitsFor(s, 0, 1) && WaitsFor(s, 1, 0);
  }

  /** A return and the deletion of its user: the one waits for the user, the other for the loan. */
  lemma ReturnAndUserDeletionCanDeadlock() returns (s: State)
    ensures Init(LENT_STATE) && Reaches(LENT_STATE, s) && IsCycle(s, [0, 1])
    ensures s.txs[0].req.Return? && s.txs[1].req.DeleteUser?
  {
    LentStateIsValid();
    s := ReturnStarts();
    hide Reaches, IssueStep, Install, OpOf, Init;
    s := Next(LENT_STATE, s, Statement(0, 0, 1));
    s := Next(LENT_STATE, s, Begin(1, DeleteUser(0)));
    s := Next(LENT_STATE, s, Statement(1, 0, 1));
    assert UserRow(0) in Needed(s.db, s.txs[0], 0);
    assert Wants(s.db, s.txs[0], UserRow(0)) && Wants(s.db, s.txs[1], LoanRow(0));
    assert WaitsFor(s, 0, 1) && WaitsFor(s, 1, 0);
  }

  // ---- The exact condition ----

  ghost predicate OfKinds(s: State, cycle: seq<TxId>, kinds: set<Kind>) {
    forall t :: t in cycle ==> t in s.txs && KindOf(s.txs[t].req) in kinds
  }

  /** Requests of these kinds, and no others, wait for each other in some reachable state. */
  ghost predicate CanDeadlock(kinds: set<Kind>) {
    exists s0, s, cycle :: Init(s0) && Reaches(s0, s) && IsCycle(s, cycle) && OfKinds(s, cycle, kinds)
  }

  lemma CycleDeadlocks(s0: State, s: State, t: TxId, t': TxId, kinds: set<Kind>)
    requires Init(s0) && Reaches(s0, s) && IsCycle(s, [t, t'])
    requires t in [t, t'] && t' in [t, t'] && KindOf(s.txs[t].req) in kinds && KindOf(s.txs[t'].req) in kinds
    ensures CanDeadlock(kinds)
  {
    hide Init, Reaches, WaitsFor, KindOf;
    assert OfKinds(s, [t, t'], kinds);
  }

  lemma ClashCanDeadlock(a: Kind, b: Kind, kinds: set<Kind>)
    requires Clash(a, b) && a in kinds && b in kinds
    ensures CanDeadlock(kinds)
  {
    hide Init, Reaches, IsCycle, CanDeadlock;
    if a.Issuing? || b.Issuing? {
      var s := IssueAndReturnCanDeadlock();
      CycleDeadlocks(TWO_COPIES, s, 0, 2, kinds);
    } else if !a.Returning? && !b.Returning? {
      var s := DeletionsCanDeadlock();
      CycleDeadlocks(TWO_LOANS, s, 0, 1, kinds);
    } else if a.DeletingBook? || b.DeletingBook? {
      var s := ReturnAndBookDeletionCanDeadlock();
      CycleDeadlocks(LENT_STATE, s, 0, 1, kinds);
    } else {
      var s := ReturnAndUserDeletionCanDeadlock();
      CycleDeadlocks(LENT_STATE, s, 0, 1, kinds);
    }
  }

  /** Requests of some kinds can deadlock if and only if two of these kinds clash. */
  lemma DeadlockExactly(kinds: set<Kind>)
    ensures CanDeadlock(kinds) <==> exists a, b :: a in kinds && b in kinds && Clash(a, b)
  {
    hide Init, Reaches, IsCycle, Clash, KindOf, Inv;
    if CanDeadlock(kinds) {
      var s0, s, cycle :| Init(s0) && Reaches(s0, s) && IsCycle(s, cycle) && OfKinds(s, cycle, kinds);
      ReachableIsOk(s0, s);
      CycleClashes(s, cycle);
    }
    if a, b :| a in kinds && b in kinds && Clash(a, b) {
      ClashCanDeadlock(a, b, kinds);
    }
  }
}
