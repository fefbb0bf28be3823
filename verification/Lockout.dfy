/** What the loans lost to deleted books end in: any user can be barred from borrowing, and a user
    once barred stays so.
 */
module Lockout {
  import opened Common
  import opened Tables
  import opened Transactions
  import opened Serializability
  import opened SerialRuns
  import opened Reachability
  import opened Completeness
  import H = Histories

  /** The counter stands at the limit without one open loan behind it. */
  predicate Barred(db: Db, u: UserId) {
    u in db.users && db.users[u] == MAX_BOOKS_ON_HAND && OpenOfUser(db, u) == {}
  }

  lemma StillLockedOut(db: Db, op: Op, u: UserId)
    requires Enabled(db, op) && op != CreateUserOp(u) && OpenOfUser(db, u) == {}
    requires u in db.users ==> db.users[u] == MAX_BOOKS_ON_HAND
    ensures op.IssueOp? ==> op.user != u
    ensures OpenOfUser(Apply(db, op), u) == {}
    ensures u in Apply(db, op).users ==> u in db.users && Apply(db, op).users[u] == MAX_BOOKS_ON_HAND
  {
    OpenOfUserAfter(db, op, u);
    assert op.ReturnOp? ==> op.loan !in OpenOfUser(db, u);
  }

  /** The price of a lost loan: a user whose counter stands at the limit without one open loan
      can never borrow again, whatever else is committed, short of being created anew. */
  lemma {:induction false} LockedOut(db: Db, log: seq<Op>, u: UserId)
    requires Valid(db) && Replay(db, log).Some?
    requires u in db.users && db.users[u] == MAX_BOOKS_ON_HAND && OpenOfUser(db, u) == {}
    requires forall i :: 0 <= i < |log| ==> log[i] != CreateUserOp(u)
    ensures forall i :: 0 <= i < |log| && log[i].IssueOp? ==> log[i].user != u
    ensures var end := Replay(db, log).value;
            OpenOfUser(end, u) == {} && (u in end.users ==> end.users[u] == MAX_BOOKS_ON_HAND)
  {
    hide Apply, Enabled;
    if log != [] {
      var n := |log| - 1;
      LockedOut(db, log[..n], u);
      StillLockedOut(Replay(db, log[..n]).value, log[n], u);
      assert forall i :: 0 <= i < n ==> log[..n][i] == log[i];
    }
  }

  // ---- Every user can get there ----

  /** Books and loans have gone, and nothing else has changed. */
  ghost predicate Shrinks(db: Db, db': Db) {
    && db'.users == db.users
    && (forall b :: b in db'.books ==> b in db.books && db'.books[b] == db.books[b])
    && (forall l :: l in db'.loans ==> l in db.loans && db'.loans[l] == db.loans[l])
  }

  lemma ShrinksTwice(a: Db, b: Db, c: Db)
    requires Shrinks(a, b) && Shrinks(b, c)
    ensures Shrinks(a, c)
  {
  }

  lemma ShrinksNot(db: Db)
    ensures Shrinks(db, db)
  {
  }

  /** Deleting one book a user holds takes at least one open loan and leaves the counter. */
  lemma DeletionLosesLoans(db: Db, l: LoanId)
    requires Valid(db) && IsOpen(db, l)
    ensures var u, op := db.loans[l].user, DeleteBookOp(db.loans[l].book);
            && Enabled(db, op) && Shrinks(db, Apply(db, op))
            && |OpenOfUser(Apply(db, op), u)| < |OpenOfUser(db, u)|
  {
    var u, b := db.loans[l].user, db.loans[l].book;
    OpenOfUserAfter(db, DeleteBookOp(b), u);
    assert l in OpenOf(db, u, b);
    SubsetSize(OpenOf(db, u, b), OpenOfUser(db, u));
    SubsetSize({l}, OpenOf(db, u, b));
  }

  lemma OpenLoanOfUser(db: Db, l: LoanId, u: UserId)
    requires l in OpenOfUser(db, u)
    ensures l in db.loans && IsOpen(db, l) && db.loans[l].user == u
  {
  }

  /** Deleting the books a user holds, and nothing more, takes all the user's loans and leaves the
      counter: at the limit this alone bars the user. */
  lemma {:induction false} DeletionsTakeAllLoans(s0: State, s: State, u: UserId) returns (s': State)
    requires Reaches(s0, s) && Inv(s) && Quiet(s) && u in s.db.users
    ensures Reaches(s0, s') && Inv(s') && Quiet(s')
    ensures Shrinks(s.db, s'.db) && OpenOfUser(s'.db, u) == {}
    decreases |OpenOfUser(s.db, u)|
  {
    assert Valid(s.db);
    hide Reaches, Inv, Quiet, Valid, Enabled, Apply, Outcome, RequestOf, OpenOfUser, Shrinks, IsOpen, Serve;
    if l :| l in OpenOfUser(s.db, u) {
      OpenLoanOfUser(s.db, l, u);
      DeletionLosesLoans(s.db, l);
      EnabledIsServed(s.db, DeleteBookOp(s.db.loans[l].book));
      var s1, t := CallReaches(s0, s, AdminCall(DeleteBookOp(s.db.loans[l].book)));
      assert u in s1.db.users by { ShrinkingKeepsUsers(s.db, s1.db); }
      s' := DeletionsTakeAllLoans(s0, s1, u);
      ShrinksTwice(s.db, s1.db, s'.db);
    } else {
      ShrinksNot(s.db);
      s' := s;
    }
  }

  lemma EnabledIsServed(db: Db, op: Op)
    requires Enabled(db, op) && WellFormed(AdminCall(op))
    ensures Serve(db, AdminCall(op)) == Apply(db, op)
  {
  }

  lemma ShrinkingKeepsUsers(db: Db, db': Db)
    requires Shrinks(db, db')
    ensures db'.users == db.users
  {
  }

  /** A new book is issued to the user and deleted again: the counter is one higher, for no loan. */
  lemma LoseOneLoan(db: Db, u: UserId, b: BookId, l: LoanId)
    requires u in db.users && db.users[u] < MAX_BOOKS_ON_HAND && OpenOfUser(db, u) == {}
    requires b !in db.books && l !in db.loans
    ensures var db1 := Serve(db, AdminCall(CreateBookOp(b, "", 1)));
            var db2 := Serve(db1, IssueCall(u, b, 0, 0, l));
            var db3 := Serve(db2, AdminCall(DeleteBookOp(b)));
            OpenOfUser(db3, u) == {} && u in db3.users && db3.users[u] == db.users[u] + 1
  {
    var create, issue, delete := CreateBookOp(b, "", 1), IssueOp(u, b, l, 0, DEFAULT_LOAN_DAYS), DeleteBookOp(b);
    var db1 := Apply(db, create);
    OpenOfUserAfter(db, create, u);
    assert forall k :: k in db1.loans && db1.loans[k].returnedAt.None? && db1.loans[k].user == u
             ==> k in OpenOfUser(db1, u);
    assert OpenOf(db1, u, b) <= OpenOfUser(db1, u);
    assert Enabled(db1, issue);
    OpenOfUserAfter(db1, issue, u);
    var db2 := Apply(db1, issue);
    OpenOfUserAfter(db2, delete, u);
    assert l in OpenOf(db2, u, b);
  }

  lemma LoanIsLost(s0: State, s: State, u: UserId) returns (s': State)
    requires Reaches(s0, s) && Inv(s) && Quiet(s) && u in s.db.users && OpenOfUser(s.db, u) == {}
    requires s.db.users[u] < MAX_BOOKS_ON_HAND
    ensures Reaches(s0, s') && Inv(s') && Quiet(s') && OpenOfUser(s'.db, u) == {}
    ensures u in s'.db.users && s'.db.users[u] == s.db.users[u] + 1
  {
    assert BornCovers(s.db, s.born);
    hide Reaches, Inv, Quiet, Serve, OpenOfUser, Outcome, RequestOf;
    var b := FreshNat(s.db.books.Keys);
    var l := FreshNat(s.born.Keys);
    LoseOneLoan(s.db, u, b, l);
    var calls := [AdminCall(CreateBookOp(b, "", 1)), IssueCall(u, b, 0, 0, l), AdminCall(DeleteBookOp(b))];
    ThreeCalls(s.db, calls);
    s' := CallsReach(s0, s, calls);
  }

  lemma ThreeCalls(db: Db, calls: seq<Call>)
    requires WellFormedAll(calls) && |calls| == 3
    ensures ServeAll(db, calls) == Serve(Serve(Serve(db, calls[0]), calls[1]), calls[2])
  {
    hide Serve;
    assert calls[1..] == [calls[1], calls[2]] && calls[1..][1..] == [calls[2]] && calls[1..][1..][1..] == [];
    var db1, db2 := Serve(db, calls[0]), Serve(Serve(db, calls[0]), calls[1]);
    assert ServeAll(db, calls) == ServeAll(db1, calls[1..]);
    assert ServeAll(db1, calls[1..]) == ServeAll(db2, calls[1..][1..]);
    assert ServeAll(db2, calls[1..][1..]) == ServeAll(Serve(db2, calls[2]), []);
  }

  lemma {:induction false} LoansAreLost(s0: State, s: State, u: UserId) returns (s': State)
    requires Reaches(s0, s) && Inv(s) && Quiet(s) && u in s.db.users && OpenOfUser(s.db, u) == {}
    requires s.db.users[u] <= MAX_BOOKS_ON_HAND
    ensures Reaches(s0, s') && Quiet(s') && Barred(s'.db, u)
    decreases MAX_BOOKS_ON_HAND - s.db.users[u]
  {
    hide Reaches, Inv, Quiet, OpenOfUser;
    if s.db.users[u] == MAX_BOOKS_ON_HAND {
      s' := s;
    } else {
      var s1 := LoanIsLost(s0, s, u);
      s' := LoansAreLost(s0, s1, u);
    }
  }

  /** From any initial state, whatever the counter of a user and however exact, a run leads to a
      state in which this user is barred. */
  lemma EveryUserCanBeBarred(s: State, u: UserId) returns (s': State)
    requires Init(s) && u in s.db.users
    ensures Reaches(s, s') && Quiet(s') && Barred(s'.db, u)
  {
    assert Inv(s) && Quiet(s) && s.db.users[u] <= MAX_BOOKS_ON_HAND;
    ReachesItself(s);
    hide Reaches, Inv, Quiet, Init, Valid;
    s' := DeletionsTakeAllLoans(s, s, u);
    s' := LoansAreLost(s, s', u);
  }

  /** The counter can leave the open loans behind: from an exact counter of zero to the limit. */
  lemma CounterCanDrift() returns (s: State, s': State, u: UserId)
    ensures Init(s) && u in s.db.users && s.db.users[u] == |OpenOfUser(s.db, u)| == 0
    ensures Reaches(s, s') && u in s'.db.users && s'.db.users[u] == MAX_BOOKS_ON_HAND && |OpenOfUser(s'.db, u)| == 0
  {
    s, u := State(Db(map[0 := 0], map[], map[]), map[], map[], []), 0;
    assert OpenOfUser(s.db, 0) == {};
    assert Init(s);
    hide Init, Reaches, Quiet;
    s' := EveryUserCanBeBarred(s, u);
  }

  // ---- And stays there, in every interleaving ----

  lemma {:induction false} LogGrows(s: State, actions: seq<Action>)
    requires CanRun(s, actions)
    ensures s.log <= Run(s, actions).log
    decreases |actions|
  {
    hide Can, Step, Install, OpOf;
    if actions != [] { LogGrows(Do(s, actions[0]), actions[1..]); }
  }

  ghost predicate StaysBarred(db: Db, u: UserId) {
    OpenOfUser(db, u) == {} && (u in db.users ==> db.users[u] == MAX_BOOKS_ON_HAND)
  }

  /** From any state of the machine in which a user is barred: no issue of this user commits, not
      even one that is under way, until the user is created anew. */
  lemma {:induction false} BarredForGood(s: State, actions: seq<Action>, u: UserId)
    requires Inv(s) && CanRun(s, actions) && StaysBarred(s.db, u)
    requires forall i :: |s.log| <= i < |Run(s, actions).log| ==> Run(s, actions).log[i].op != CreateUserOp(u)
    ensures var end := Run(s, actions);
            && StaysBarred(end.db, u)
            && forall i :: |s.log| <= i < |end.log| && end.log[i].op.IssueOp? ==> end.log[i].op.user != u
    decreases |actions|
  {
    if actions != [] {
      var a, s1 := actions[0], Do(s, actions[0]);
      assert a.Commit? ==> a.t in s.txs;
      assert s.log <= s1.log && Run(s, actions) == Run(s1, actions[1..]);
      hide Inv, Can, Step, Install, OpOf, OpenOfUser, Enabled, Apply;
      LogGrows(s1, actions[1..]);
      DoKeepsInv(s, a);
      if a.Commit? {
        CommitKeepsInv(s, a.t);
        assert Run(s, actions).log[|s.log|] == s1.log[|s.log|];
        StillLockedOut(s.db, OpOf(s.txs[a.t]), u);
      }
      BarredForGood(s1, actions[1..], u);
    }
  }
}
