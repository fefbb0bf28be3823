/** The page's list of open loans in local storage, against the server's open-loan query. */
module LoanCache {
  import opened Common
  import opened Tables
  import Z = Serializability

  /** A cached loan; its title, which only decorates it, is not modelled. */
  datatype Entry = Entry(id: LoanId, book: BookId, issuedAt: int, due: int)

  datatype OpenLoanItem = OpenLoanItem(id: LoanId, book: BookId, title: Option<string>, issuedAt: int, due: int)

  function EntryOf(db: Db, l: LoanId): Entry
    requires l in db.loans
  {
    Entry(l, db.loans[l].book, db.loans[l].issuedAt, db.loans[l].due)
  }

  // ---- The server's query ----

  ghost predicate NewestFirst(db: Db, ids: seq<LoanId>) {
    && (forall i :: 0 <= i < |ids| ==> ids[i] in db.loans)
    && (forall i, j :: 0 <= i < j < |ids| ==>
          ids[i] != ids[j] && db.loans[ids[i]].issuedAt >= db.loans[ids[j]].issuedAt)
  }

  /** A possible result of the query: this user's open loans, each once, newest first. */
  ghost predicate IsOpenList(db: Db, u: UserId, ids: seq<LoanId>) {
    NewestFirst(db, ids) && forall l :: l in ids <==> l in OpenOfUser(db, u)
  }

  lemma {:induction false} NewestLoan(db: Db, s: set<LoanId>) returns (newest: LoanId)
    requires s != {} && forall l :: l in s ==> l in db.loans
    ensures newest in s && forall l :: l in s ==> db.loans[newest].issuedAt >= db.loans[l].issuedAt
  {
    newest :| newest in s;
    if s != {newest} {
      var other := NewestLoan(db, s - {newest});
      if db.loans[other].issuedAt > db.loans[newest].issuedAt { newest := other; }
    }
  }

  lemma {:induction false} NewestFirstExists(db: Db, s: set<LoanId>) returns (ids: seq<LoanId>)
    requires forall l :: l in s ==> l in db.loans
    ensures NewestFirst(db, ids) && forall l :: l in ids <==> l in s
  {
    if s == {} {
      ids := [];
    } else {
      var newest := NewestLoan(db, s);
      var rest := NewestFirstExists(db, s - {newest});
      forall i | 0 <= i < |rest| ensures rest[i] in s && rest[i] != newest { assert rest[i] in rest; }
      ids := [newest] + rest;
    }
  }

  /** The query always has an answer. */
  lemma OpenListExists(db: Db, u: UserId) returns (ids: seq<LoanId>)
    ensures IsOpenList(db, u, ids)
  {
    ids := NewestFirstExists(db, OpenOfUser(db, u));
  }

  /** get_open_loans_for_user on one result of the query; the title is that of the outer join. */
  method GetOpenLoansForUser(db: Db, u: UserId, ids: seq<LoanId>) returns (items: seq<OpenLoanItem>)
    requires IsOpenList(db, u, ids)
    ensures |items| == |ids|
    ensures forall i :: 0 <= i < |items| ==>
              var loan := db.loans[ids[i]];
              && items[i].id == ids[i] && items[i].book == loan.book && items[i].issuedAt == loan.issuedAt
              && items[i].due == loan.due
              && (loan.book in db.books ==> items[i].title == Some(db.books[loan.book].title))
    ensures Valid(db) ==> forall i :: 0 <= i < |items| ==> items[i].title.Some?
  {
    items := [];
    for n := 0 to |ids|
      invariant |items| == n
      invariant forall i :: 0 <= i < n ==>
                  var loan := db.loans[ids[i]];
                  items[i] == OpenLoanItem(ids[i], loan.book,
                                           if loan.book in db.books then Some(db.books[loan.book].title) else None,
                                           loan.issuedAt, loan.due)
    {
      var loan := db.loans[ids[n]];
      var title := if loan.book in db.books then Some(db.books[loan.book].title) else None;
      items := items + [OpenLoanItem(ids[n], loan.book, title, loan.issuedAt, loan.due)];
    }
  }

  // ---- The cache ----

  function Ids(list: seq<Entry>): (ids: seq<LoanId>)
    ensures |ids| == |list| && forall i :: 0 <= i < |list| ==> ids[i] == list[i].id
  {
    seq(|list|, i requires 0 <= i < |list| => list[i].id)
  }

  function Without(list: seq<Entry>, id: LoanId): seq<Entry> {
    if list == [] then []
    else if list[0].id == id then Without(list[1..], id)
    else [list[0]] + Without(list[1..], id)
  }

  /** The cache is a possible answer of the server, entry by entry. */
  ghost predicate Agrees(db: Db, u: UserId, list: seq<Entry>) {
    && IsOpenList(db, u, Ids(list))
    && forall i :: 0 <= i < |list| ==> list[i].id in db.loans && list[i] == EntryOf(db, list[i].id)
  }

  /** What a cache that agrees with the server shows: exactly this user's open loans, each with its
      own book and dates, newest first. */
  lemma CacheShows(db: Db, u: UserId, list: seq<Entry>)
    requires Agrees(db, u, list)
    ensures forall i :: 0 <= i < |list| ==>
              && list[i].id in db.loans && db.loans[list[i].id].user == u && db.loans[list[i].id].returnedAt == None
              && list[i].book == db.loans[list[i].id].book
              && list[i].issuedAt == db.loans[list[i].id].issuedAt && list[i].due == db.loans[list[i].id].due
    ensures forall i, j :: 0 <= i < j < |list| ==> list[i].id != list[j].id && list[i].issuedAt >= list[j].issuedAt
    ensures forall l :: l in db.loans && db.loans[l].user == u && db.loans[l].returnedAt == None ==>
              exists i :: 0 <= i < |list| && list[i].id == l
  {
    forall i | 0 <= i < |list| ensures list[i].id in OpenOfUser(db, u) { assert Ids(list)[i] in Ids(list); }
    forall l | l in db.loans && db.loans[l].user == u && db.loans[l].returnedAt == None
      ensures exists i :: 0 <= i < |list| && list[i].id == l
    {
      assert l in Ids(list);
      var i :| 0 <= i < |list| && Ids(list)[i] == l;
      assert list[i].id == l;
    }
  }

  // ---- When issue times differ the answer is unique ----

  ghost predicate DistinctTimes(db: Db, u: UserId) {
    forall l, m :: l in OpenOfUser(db, u) && m in OpenOfUser(db, u) && l != m
      ==> db.loans[l].issuedAt != db.loans[m].issuedAt
  }

  lemma SameHead(db: Db, p: seq<LoanId>, q: seq<LoanId>)
    requires NewestFirst(db, p) && NewestFirst(db, q) && p != [] && q != []
    requires p[0] in q && q[0] in p && (p[0] != q[0] ==> db.loans[p[0]].issuedAt != db.loans[q[0]].issuedAt)
    ensures p[0] == q[0]
  {
  }

  lemma TailMembers(p: seq<LoanId>, l: LoanId)
    requires p != [] && forall i, j :: 0 <= i < j < |p| ==> p[i] != p[j]
    ensures l in p[1..] <==> l in p && l != p[0]
  {
  }

  lemma SameEmptiness(p: seq<LoanId>, q: seq<LoanId>)
    requires forall l :: l in p <==> l in q
    ensures p == [] <==> q == []
  {
    if p != [] { assert p[0] in q; }
    if q != [] { assert q[0] in p; }
  }

  lemma TailsAgree(db: Db, p: seq<LoanId>, q: seq<LoanId>)
    requires NewestFirst(db, p) && NewestFirst(db, q) && p != [] && q != [] && p[0] == q[0]
    requires forall l :: l in p <==> l in q
    ensures NewestFirst(db, p[1..]) && NewestFirst(db, q[1..])
    ensures forall l :: (l in p[1..] <==> l in q[1..]) && (l in p[1..] ==> l in p)
  {
    forall l ensures (l in p[1..] <==> l in q[1..]) && (l in p[1..] ==> l in p) {
      TailMembers(p, l);
      TailMembers(q, l);
    }
  }

  lemma {:induction false} OneOrder(db: Db, p: seq<LoanId>, q: seq<LoanId>)
    requires NewestFirst(db, p) && NewestFirst(db, q) && forall l :: l in p <==> l in q
    requires forall l, m :: l in p && m in p && l != m ==> db.loans[l].issuedAt != db.loans[m].issuedAt
    ensures p == q
    decreases |p|
  {
    SameEmptiness(p, q);
    if p != [] {
      assert p[0] in q && q[0] in p;
      SameHead(db, p, q);
      TailsAgree(db, p, q);
      hide NewestFirst;
      OneOrder(db, p[1..], q[1..]);
      assert p == [p[0]] + p[1..] && q == [q[0]] + q[1..];
    }
  }

  /** Any two caches that agree with the server are the same list. */
  lemma AgreementIsUnique(db: Db, u: UserId, a: seq<Entry>, b: seq<Entry>)
    requires Agrees(db, u, a) && Agrees(db, u, b) && DistinctTimes(db, u)
    ensures a == b
  {
    OneOrder(db, Ids(a), Ids(b));
    forall i | 0 <= i < |a| ensures a[i] == b[i] {
      assert Ids(a)[i] == Ids(b)[i];
    }
  }

  // ---- Following this client's issues and returns ----

  lemma {:induction false} WithoutDrops(list: seq<Entry>, id: LoanId)
    ensures forall e :: e in Without(list, id) <==> e in list && e.id != id
    ensures |Without(list, id)| <= |list|
  {
    if list != [] {
      WithoutDrops(list[1..], id);
      forall e ensures e in list <==> e == list[0] || e in list[1..] {
        assert list == [list[0]] + list[1..];
      }
    }
  }

  /** The entries of a list stand for present loans and are in the query's order. */
  ghost predicate Ordered(db: Db, list: seq<Entry>) {
    && (forall i :: 0 <= i < |list| ==> list[i].id in db.loans && list[i] == EntryOf(db, list[i].id))
    && (forall i, j :: 0 <= i < j < |list| ==> list[i].id != list[j].id && list[i].issuedAt >= list[j].issuedAt)
  }

  lemma PrependKeepsOrder(db: Db, list: seq<Entry>, e: Entry)
    requires Ordered(db, list) && e.id in db.loans && e == EntryOf(db, e.id)
    requires forall f :: f in list ==> f.id != e.id && f.issuedAt <= e.issuedAt
    ensures Ordered(db, [e] + list)
  {
  }

  lemma HeadComesFirst(db: Db, list: seq<Entry>, e: Entry)
    requires Ordered(db, list) && list != [] && e in list[1..]
    ensures e.id != list[0].id && list[0].issuedAt >= e.issuedAt
  {
  }

  lemma {:induction false} WithoutKeepsOrder(db: Db, list: seq<Entry>, id: LoanId)
    requires Ordered(db, list)
    ensures Ordered(db, Without(list, id))
  {
    if list != [] {
      assert Ordered(db, list[1..]) && list[0].id in db.loans && list[0] == EntryOf(db, list[0].id);
      WithoutKeepsOrder(db, list[1..], id);
      if list[0].id != id {
        WithoutDrops(list[1..], id);
        forall e | e in list[1..] ensures e.id != list[0].id && list[0].issuedAt >= e.issuedAt {
          HeadComesFirst(db, list, e);
        }
        hide Ordered;
        PrependKeepsOrder(db, Without(list[1..], id), list[0]);
      }
    }
  }

  lemma AgreesMeans(db: Db, u: UserId, list: seq<Entry>)
    ensures Agrees(db, u, list) <==>
              Ordered(db, list) && forall l :: l in OpenOfUser(db, u) <==> exists e :: e in list && e.id == l
  {
  }

  /** A change the page keeps up with: its own issue, no earlier than its open loans; a return; or
      anything of others that leaves its open loans alone. */
  ghost predicate Expected(db: Db, u: UserId, op: Op) {
    match op
    case IssueOp(v, _, _, issuedAt, _) =>
      u == v ==> forall l :: l in OpenOfUser(db, u) ==> db.loans[l].issuedAt <= issuedAt
    case DeleteUserOp(v) => u == v ==> OpenOfUser(db, u) == {}
    case DeleteBookOp(b) => OpenOf(db, u, b) == {}
    case _ => true
  }

  /** The page's reaction: it adds what it was issued and drops what it returned. */
  function React(db: Db, u: UserId, list: seq<Entry>, op: Op): seq<Entry>
    requires Enabled(db, op)
  {
    match op
    case IssueOp(v, _, l, _, _) =>
      if u == v then [EntryOf(Apply(db, op), l)] + Without(list, l) else list
    case ReturnOp(l, _) => if db.loans[l].user == u then Without(list, l) else list
    case _ => list
  }

  lemma ReturnReaction(db: Db, u: UserId, list: seq<Entry>, op: Op)
    requires Agrees(db, u, list) && op.ReturnOp? && Enabled(db, op)
    ensures Agrees(Apply(db, op), u, React(db, u, list, op))
  {
    var after := Apply(db, op);
    AgreesMeans(db, u, list);
    assert Ordered(after, list);
    WithoutKeepsOrder(after, list, op.loan);
    WithoutDrops(list, op.loan);
    AgreesMeans(after, u, React(db, u, list, op));
    OpenOfUserAfter(db, op, u);
  }

  lemma OwnIssueReaction(db: Db, u: UserId, list: seq<Entry>, op: Op)
    requires Agrees(db, u, list) && op.IssueOp? && op.user == u && Enabled(db, op) && Expected(db, u, op)
    ensures Agrees(Apply(db, op), u, React(db, u, list, op))
  {
    var after := Apply(db, op);
    var kept := Without(list, op.loan);
    AgreesMeans(db, u, list);
    forall i | 0 <= i < |list| ensures list[i].id in after.loans && after.loans[list[i].id] == db.loans[list[i].id]
                                       && list[i].issuedAt <= op.issuedAt {
      assert list[i] in list;
      assert list[i].id in OpenOfUser(db, u);
    }
    WithoutKeepsOrder(after, list, op.loan);
    WithoutDrops(list, op.loan);
    PrependKeepsOrder(after, kept, EntryOf(after, op.loan));
    OpenOfUserAfter(db, op, u);
    AgreesMeans(after, u, [EntryOf(after, op.loan)] + kept);
    hide Ordered, Agrees, Enabled, Apply, OpenOfUser;
    var list' := [EntryOf(after, op.loan)] + kept;
    forall l ensures l in OpenOfUser(after, u) <==> exists e :: e in list' && e.id == l {
      if l == op.loan { assert list'[0].id == l; }
      if e :| e in list && e.id == l { assert l != op.loan ==> e in list'; }
    }
  }

  lemma IssueReaction(db: Db, u: UserId, list: seq<Entry>, op: Op)
    requires Agrees(db, u, list) && op.IssueOp? && Enabled(db, op) && Expected(db, u, op)
    ensures Agrees(Apply(db, op), u, React(db, u, list, op))
  {
    if op.user == u {
      OwnIssueReaction(db, u, list, op);
    } else {
      AgreesMeans(db, u, list);
      OpenOfUserAfter(db, op, u);
      assert Ordered(Apply(db, op), list);
      AgreesMeans(Apply(db, op), u, list);
    }
  }

  lemma OtherReaction(db: Db, u: UserId, list: seq<Entry>, op: Op)
    requires Agrees(db, u, list) && !op.IssueOp? && !op.ReturnOp? && Enabled(db, op) && Expected(db, u, op)
    ensures Agrees(Apply(db, op), u, React(db, u, list, op))
  {
    var after := Apply(db, op);
    OpenOfUserAfter(db, op, u);
    assert OpenOfUser(after, u) == OpenOfUser(db, u);
    AgreesMeans(db, u, list);
    forall i | 0 <= i < |list| ensures list[i].id in after.loans && after.loans[list[i].id] == db.loans[list[i].id] {
      assert list[i] in list;
      assert list[i].id in OpenOfUser(after, u);
    }
    AgreesMeans(after, u, list);
  }

  /** A reaction with the same loans as before agrees only if no open loan of the user went away. */
  lemma SameListSameLoans(db: Db, after: Db, u: UserId, list: seq<Entry>)
    requires Agrees(db, u, list) && Agrees(after, u, list)
    ensures OpenOfUser(after, u) == OpenOfUser(db, u)
  {
    AgreesMeans(db, u, list);
    AgreesMeans(after, u, list);
    hide Agrees, Ordered, OpenOfUser;
    assert forall l :: l in OpenOfUser(after, u) <==> l in OpenOfUser(db, u);
  }

  lemma LateIssueIsFirst(db: Db, u: UserId, list: seq<Entry>, op: Op)
    requires Agrees(db, u, list) && op.IssueOp? && op.user == u && Enabled(db, op)
    requires Agrees(Apply(db, op), u, React(db, u, list, op))
    ensures Expected(db, u, op)
  {
    var after := Apply(db, op);
    var list' := React(db, u, list, op);
    forall l | l in OpenOfUser(db, u) ensures db.loans[l].issuedAt <= op.issuedAt {
      OpenOfUserAfter(db, op, u);
      assert l in OpenOfUser(after, u) && l != op.loan;
      assert l in Ids(list');
      var i :| 0 <= i < |list'| && Ids(list')[i] == l;
      assert Ids(list')[0] == op.loan;
    }
  }

  /** After a change the page's reaction agrees with the server if and only if the change is one the
      page keeps up with. */
  lemma ReactionExactly(db: Db, u: UserId, list: seq<Entry>, op: Op)
    requires Agrees(db, u, list) && Enabled(db, op)
    ensures Agrees(Apply(db, op), u, React(db, u, list, op)) <==> Expected(db, u, op)
  {
    hide Agrees, Enabled, Apply;
    if Expected(db, u, op) {
      if op.IssueOp? { IssueReaction(db, u, list, op); }
      else if op.ReturnOp? { ReturnReaction(db, u, list, op); }
      else { OtherReaction(db, u, list, op); }
    }
    if Agrees(Apply(db, op), u, React(db, u, list, op)) {
      OpenOfUserAfter(db, op, u);
      if op.IssueOp? && op.user == u { LateIssueIsFirst(db, u, list, op); }
      else if op.DeleteUserOp? || op.DeleteBookOp? { SameListSameLoans(db, Apply(db, op), u, list); }
    }
  }

  /** The cache after a history, from a cache at its start. */
  function CacheAfter(db: Db, u: UserId, list: seq<Entry>, log: seq<Op>): seq<Entry>
    requires Z.Replay(db, log).Some?
  {
    if log == [] then list
    else
      React(Z.Replay(db, log[..|log| - 1]).value, u, CacheAfter(db, u, list, log[..|log| - 1]), log[|log| - 1])
  }

  /** Starting from a sync, through any history that keeps to this client's own issues and returns
      and to others' business, the cache is what the server would answer. */
  lemma {:induction false} CacheFollowsServer(db: Db, u: UserId, list: seq<Entry>, log: seq<Op>)
    requires Z.Replay(db, log).Some? && Agrees(db, u, list)
    requires forall n :: 0 <= n < |log| && Z.Replay(db, log[..n]).Some? ==>
               Expected(Z.Replay(db, log[..n]).value, u, log[n])
    ensures Agrees(Z.Replay(db, log).value, u, CacheAfter(db, u, list, log))
  {
    if log != [] {
      var n := |log| - 1;
      var before := Z.Replay(db, log[..n]).value;
      forall k | 0 <= k < n && Z.Replay(db, log[..n][..k]).Some?
        ensures Expected(Z.Replay(db, log[..n][..k]).value, u, log[..n][k])
      {
        assert log[..n][..k] == log[..k];
      }
      CacheFollowsServer(db, u, list, log[..n]);
      var cached := CacheAfter(db, u, list, log[..n]);
      if log[n].IssueOp? { IssueReaction(before, u, cached, log[n]); }
      else if log[n].ReturnOp? { ReturnReaction(before, u, cached, log[n]); }
      else { OtherReaction(before, u, cached, log[n]); }
    }
  }

  // ---- The code ----

  /** An operation of this client's own: the storage method that follows it is called with its reply. */
  ghost predicate OwnIssue(db: Db, u: UserId, op: Op, entry: Entry) {
    op.IssueOp? && op.user == u && Enabled(db, op) && Expected(db, u, op) && entry == EntryOf(Apply(db, op), op.loan)
  }

  ghost predicate OwnReturn(db: Db, u: UserId, op: Op, id: LoanId) {
    op.ReturnOp? && op.loan == id && Enabled(db, op) && db.loans[id].user == u
  }

  class LocalStorage {
    var loans: seq<Entry>

    constructor ()
      ensures loans == []
    {
      loans := [];
    }

    /** Whatever is cached, the entry ends up first and is the only one with its id. If the cache
        agreed with the server before this client's issue, it agrees with it after. */
    method AddLoanEntry(entry: Entry, ghost db: Db, ghost u: UserId, ghost op: Op)
      modifies this
      ensures loans != [] && loans[0] == entry
      ensures forall e :: e in loans[1..] <==> e in old(loans) && e.id != entry.id
      ensures OwnIssue(db, u, op, entry) ==> loans == React(db, u, old(loans), op)
      ensures OwnIssue(db, u, op, entry) && Agrees(db, u, old(loans)) ==> Agrees(Apply(db, op), u, loans)
    {
      WithoutDrops(loans, entry.id);
      if OwnIssue(db, u, op, entry) && Agrees(db, u, loans) { OwnIssueReaction(db, u, loans, op); }
      hide Agrees, Enabled, Apply, Expected;
      loans := [entry] + Without(loans, entry.id);
    }

    /** No entry with this id is left, and no other entry goes. If the cache agreed with the server
        before this client's return, it agrees with it after. */
    method RemoveLoanById(id: LoanId, ghost db: Db, ghost u: UserId, ghost op: Op)
      modifies this
      ensures forall e :: e in loans <==> e in old(loans) && e.id != id
      ensures OwnReturn(db, u, op, id) ==> loans == React(db, u, old(loans), op)
      ensures OwnReturn(db, u, op, id) && Agrees(db, u, old(loans)) ==> Agrees(Apply(db, op), u, loans)
    {
      WithoutDrops(loans, id);
      if OwnReturn(db, u, op, id) && Agrees(db, u, loans) { ReturnReaction(db, u, loans, op); }
      hide Agrees, Enabled, Apply;
      loans := Without(loans, id);
    }

    /** Whatever was cached is replaced by what the server lists; without a stored user by nothing. */
    method SyncLoansFromServer(user: Option<UserId>, items: seq<OpenLoanItem>, ghost db: Db, ghost ids: seq<LoanId>)
      requires user.Some? ==> IsOpenList(db, user.value, ids) && |items| == |ids|
      requires user.Some? ==> forall i :: 0 <= i < |items| ==>
                 var loan := db.loans[ids[i]];
                 items[i].id == ids[i] && items[i].book == loan.book && items[i].issuedAt == loan.issuedAt
                 && items[i].due == loan.due
      modifies this
      ensures user.None? ==> loans == []
      ensures user.Some? ==> Agrees(db, user.value, loans)
      ensures user.Some? ==> |loans| == |items| && forall i :: 0 <= i < |items| ==>
                loans[i] == Entry(items[i].id, items[i].book, items[i].issuedAt, items[i].due)
    {
      if user.None? {
        loans := [];
        return;
      }
      var normalized: seq<Entry> := [];
      for n := 0 to |items|
        invariant |normalized| == n && forall i :: 0 <= i < n ==> normalized[i] == EntryOf(db, ids[i])
        invariant forall i :: 0 <= i < n ==>
                    normalized[i] == Entry(items[i].id, items[i].book, items[i].issuedAt, items[i].due)
      {
        normalized := normalized + [Entry(items[n].id, items[n].book, items[n].issuedAt, items[n].due)];
      }
      loans := normalized;
      assert Ids(loans) == ids;
    }
  }
}
