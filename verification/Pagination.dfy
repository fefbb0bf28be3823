/** The paginated catalogue: pages, totals and the client's walk through them, against the plain
    list of matching rows ordered by (title, id). The search filter is any predicate.
 */
module Pagination {

  datatype Row = Row(title: string, id: nat)

  // ---- The order ----

  predicate TitleLess(a: string, b: string) {
    if b == [] then false
    else if a == [] then true
    else a[0] < b[0] || (a[0] == b[0] && TitleLess(a[1..], b[1..]))
  }

  predicate Less(a: Row, b: Row) {
    TitleLess(a.title, b.title) || (a.title == b.title && a.id < b.id)
  }

  lemma {:induction false} TitlesAreOrdered(a: string, b: string, c: string)
    ensures !TitleLess(a, a)
    ensures a == b || TitleLess(a, b) || TitleLess(b, a)
    ensures TitleLess(a, b) && TitleLess(b, c) ==> TitleLess(a, c)
    decreases |a| + |b| + |c|
  {
    if a != [] && b != [] {
      TitlesAreOrdered(a[1..], b[1..], if c != [] then c[1..] else c);
      assert a == [a[0]] + a[1..] && b == [b[0]] + b[1..];
    } else if a != [] {
      TitlesAreOrdered(a[1..], b, c);
    }
  }

  lemma RowsAreOrdered(a: Row, b: Row, c: Row)
    ensures !Less(a, a)
    ensures a == b || Less(a, b) || Less(b, a)
    ensures Less(a, b) && Less(b, c) ==> Less(a, c)
  {
    TitlesAreOrdered(a.title, b.title, c.title);
  }

  /** This title comes first in the character order: they differ at a first place, or it ends there. */
  ghost predicate ComesFirst(a: string, b: string) {
    exists k :: 0 <= k <= |a| && k < |b| && a[..k] == b[..k] && (k == |a| || a[k] < b[k])
  }

  lemma {:induction false} TitlesCompareAtFirstDifference(a: string, b: string)
    ensures TitleLess(a, b) <==> ComesFirst(a, b)
    decreases |a|
  {
    if b == [] {
    } else if a == [] {
      assert a[..0] == b[..0];
    } else {
      TitlesCompareAtFirstDifference(a[1..], b[1..]);
      if a[0] == b[0] {
        if k :| 0 <= k <= |a| && k < |b| && a[..k] == b[..k] && (k == |a| || a[k] < b[k]) {
          assert k > 0;
          assert a[1..][..k - 1] == a[..k][1..] && b[1..][..k - 1] == b[..k][1..];
        }
        var p, q := a[1..], b[1..];
        if j :| 0 <= j <= |p| && j < |q| && p[..j] == q[..j] && (j == |p| || p[j] < q[j]) {
          assert a[..j + 1] == [a[0]] + p[..j] && b[..j + 1] == [b[0]] + q[..j];
        }
      } else {
        assert a[..0] == b[..0];
        assert a[0] < b[0] ==> ComesFirst(a, b);
        assert forall k :: 0 < k <= |a| && k < |b| ==> a[..k][0] == a[0] && b[..k][0] == b[0];
      }
    }
  }

  // ---- The reference list ----

  ghost predicate Ascending(q: seq<Row>) {
    forall i, j :: 0 <= i < j < |q| ==> Less(q[i], q[j])
  }

  /** The rows that pass the search filter, each once, in order. */
  ghost predicate IsListing(s: set<Row>, q: seq<Row>) {
    Ascending(q) && forall r :: r in q <==> r in s
  }

  /** How many rows of the set come before this one. */
  function Rank(s: set<Row>, r: Row): nat {
    |set x | x in s && Less(x, r)|
  }

  ghost function Members(q: seq<Row>): set<Row> {
    set r | r in q
  }

  lemma {:induction false} MembersCounted(q: seq<Row>)
    requires Ascending(q)
    ensures |Members(q)| == |q|
  {
    if q != [] {
      var init, last := q[..|q| - 1], q[|q| - 1];
      MembersCounted(init);
      RowsAreOrdered(last, last, last);
      assert last !in init;
      assert q == init + [last];
      assert Members(q) == Members(init) + {last};
    }
  }

  /** In a listing the row at position i has exactly i rows before it. */
  lemma PositionIsRank(s: set<Row>, q: seq<Row>, i: nat)
    requires IsListing(s, q) && i < |q|
    ensures Rank(s, q[i]) == i
  {
    var before := set x | x in s && Less(x, q[i]);
    forall x ensures x in before <==> x in q[..i] {
      if x in q[..i] { var k :| 0 <= k < i && q[..i][k] == x; assert q[k] == x && x in q; }
      if x in before {
        assert x in q;
        var k :| 0 <= k < |q| && q[k] == x;
        RowsAreOrdered(q[i], q[k], q[i]);
      }
    }
    assert before == Members(q[..i]);
    MembersCounted(q[..i]);
  }

  lemma ListingCounts(s: set<Row>, q: seq<Row>)
    requires IsListing(s, q)
    ensures |q| == |s|
  {
    MembersCounted(q);
    assert s == Members(q);
  }

  /** There is only one listing of a set. */
  lemma ListingIsUnique(s: set<Row>, p: seq<Row>, q: seq<Row>)
    requires IsListing(s, p) && IsListing(s, q)
    ensures p == q
  {
    ListingCounts(s, p);
    ListingCounts(s, q);
    forall i | 0 <= i < |p| ensures p[i] == q[i] {
      assert p[i] in p && p[i] in s;
      var k :| 0 <= k < |q| && q[k] == p[i];
      PositionIsRank(s, p, i);
      PositionIsRank(s, q, k);
    }
  }

  lemma {:induction false} LeastRow(s: set<Row>) returns (least: Row)
    requires s != {}
    ensures least in s && forall r :: r in s && r != least ==> Less(least, r)
  {
    least :| least in s;
    if s != {least} {
      var other := LeastRow(s - {least});
      RowsAreOrdered(least, other, other);
      forall r | r in s { RowsAreOrdered(least, other, r); }
      forall r | r in s { RowsAreOrdered(other, least, r); }
      if Less(other, least) { least := other; }
    }
  }

  /** Every set has a listing. */
  lemma {:induction false} ListingExists(s: set<Row>) returns (listing: seq<Row>)
    ensures IsListing(s, listing)
  {
    if s == {} {
      listing := [];
    } else {
      var least := LeastRow(s);
      var rest := ListingExists(s - {least});
      listing := [least] + rest;
    }
  }

  // ---- The repository query ----

  /** ORDER BY, LIMIT and OFFSET over the listing of the matching rows. */
  function Window(listing: seq<Row>, limit: nat, offset: nat): seq<Row> {
    if offset >= |listing| then []
    else if offset + limit >= |listing| then listing[offset..]
    else listing[offset..offset + limit]
  }

  /** list_paginated: every row of a page carries the window total; an empty page has no row to
      read it from, so the total comes from a count, or is 0 at offset 0. */
  function ListPaginated(listing: seq<Row>, limit: nat, offset: nat): (seq<Row>, nat) {
    var rows := Window(listing, limit, offset);
    if rows == [] then ([], if offset > 0 then |listing| else 0) else (rows, |listing|)
  }

  lemma WindowAt(listing: seq<Row>, limit: nat, offset: nat, i: nat)
    ensures i < |Window(listing, limit, offset)| <==> i < limit && offset + i < |listing|
    ensures i < |Window(listing, limit, offset)| ==> Window(listing, limit, offset)[i] == listing[offset + i]
  {
  }

  /** A page holds exactly the matching rows ranked offset to offset + limit, in order. */
  lemma PageIsRankWindow(s: set<Row>, listing: seq<Row>, limit: nat, offset: nat)
    requires IsListing(s, listing)
    ensures var items := ListPaginated(listing, limit, offset).0;
            && Ascending(items)
            && (forall r :: r in items <==> r in s && offset <= Rank(s, r) < offset + limit)
            && (forall i :: 0 <= i < |items| ==> Rank(s, items[i]) == offset + i)
  {
    var items := ListPaginated(listing, limit, offset).0;
    assert items == Window(listing, limit, offset);
    hide ListPaginated, Window, Less, Rank;
    forall i | 0 <= i < |items|
      ensures offset + i < |listing| && items[i] == listing[offset + i] && Rank(s, items[i]) == offset + i && i < limit
    {
      WindowAt(listing, limit, offset, i);
      PositionIsRank(s, listing, offset + i);
    }
    forall r ensures r in items <==> r in s && offset <= Rank(s, r) < offset + limit {
      if r in items { var i :| 0 <= i < |items| && items[i] == r; assert r in listing; }
      if r in s && offset <= Rank(s, r) < offset + limit {
        assert r in listing;
        var k :| 0 <= k < |listing| && listing[k] == r;
        PositionIsRank(s, listing, k);
        WindowAt(listing, limit, offset, k - offset);
        assert items[k - offset] == r;
      }
    }
  }

  /** The rows of a page stand in the order of their titles, equal titles in the order of their ids. */
  lemma PageOrder(s: set<Row>, listing: seq<Row>, limit: nat, offset: nat, i: nat, j: nat)
    requires IsListing(s, listing) && i < j < |ListPaginated(listing, limit, offset).0|
    ensures var a, b := ListPaginated(listing, limit, offset).0[i], ListPaginated(listing, limit, offset).0[j];
            || (a.title == b.title && a.id < b.id)
            || exists k :: 0 <= k <= |a.title| && k < |b.title| && a.title[..k] == b.title[..k]
                           && (k == |a.title| || a.title[k] < b.title[k])
  {
    PageIsRankWindow(s, listing, limit, offset);
    var a, b := ListPaginated(listing, limit, offset).0[i], ListPaginated(listing, limit, offset).0[j];
    assert Less(a, b);
    TitlesCompareAtFirstDifference(a.title, b.title);
  }

  /** The first page starts with the least title: no matching row comes before it. */
  lemma FirstRowIsLeast(s: set<Row>, listing: seq<Row>, limit: nat, r: Row)
    requires IsListing(s, listing) && limit > 0 && r in s
    ensures var items := ListPaginated(listing, limit, 0).0;
            && items != []
            && (|| r == items[0] || (r.title == items[0].title && items[0].id < r.id)
                || ComesFirst(items[0].title, r.title))
  {
    assert r in listing;
    var k :| 0 <= k < |listing| && listing[k] == r;
    TitlesCompareAtFirstDifference(listing[0].title, r.title);
  }

  /** The reported total is the number of matching rows, for offsets past the end too, if and only
      if the limit is positive (as the request model demands), or the offset is, or nothing matches. */
  lemma TotalIsExact(s: set<Row>, listing: seq<Row>, limit: nat, offset: nat)
    requires IsListing(s, listing)
    ensures ListPaginated(listing, limit, offset).1 == |s| <==> limit > 0 || offset > 0 || s == {}
  {
    ListingCounts(s, listing);
    assert |s| == 0 <==> s == {};
  }

  // ---- The client ----

  /** The Next button is disabled when the page reaches the total. */
  predicate NextDisabled(offset: nat, items: nat, total: nat) {
    offset + items >= total
  }

  /** On any page, Next is disabled exactly when the following page would be empty. */
  lemma NextStopsOnLastPage(listing: seq<Row>, limit: nat, offset: nat)
    requires limit > 0
    ensures var (items, total) := ListPaginated(listing, limit, offset);
            NextDisabled(offset, |items|, total) <==> Window(listing, limit, offset + limit) == []
  {
  }

  function PagesOf(rows: nat, limit: nat): nat
    requires limit > 0
  {
    if rows <= limit then 1 else 1 + PagesOf(rows - limit, limit)
  }

  /** The pages are the rows divided by the limit, rounded up, and at least one. */
  lemma {:induction false} PagesCover(rows: nat, limit: nat)
    requires limit > 0
    ensures var pages := PagesOf(rows, limit);
            pages >= 1 && rows <= pages * limit && (pages > 1 ==> (pages - 1) * limit < rows)
    decreases rows
  {
    if rows > limit {
      PagesCover(rows - limit, limit);
      var rest := PagesOf(rows - limit, limit);
      assert (rest + 1) * limit == rest * limit + limit && rest * limit == (rest - 1) * limit + limit;
    }
  }

  function Upto(listing: seq<Row>, n: nat): seq<Row> {
    if n <= |listing| then listing[..n] else listing
  }

  lemma WindowExtends(listing: seq<Row>, limit: nat, offset: nat)
    requires offset <= |listing|
    ensures Upto(listing, offset) + Window(listing, limit, offset) == Upto(listing, offset + limit)
  {
  }

  /** Clicking Next until it is disabled reads the whole listing once, in order, in as many pages
      as the limit needs. */
  method WalkPages(ghost s: set<Row>, listing: seq<Row>, limit: nat) returns (seen: seq<Row>, pages: nat)
    requires limit > 0 && IsListing(s, listing)
    ensures seen == listing && |seen| == |s|
    ensures pages == PagesOf(|s|, limit)
  {
    ListingCounts(s, listing);
    var offset := 0;
    var (items, total) := ListPaginated(listing, limit, offset);
    WindowExtends(listing, limit, 0);
    seen, pages := items, 1;
    while !NextDisabled(offset, |items|, total)
      invariant (items, total) == ListPaginated(listing, limit, offset)
      invariant offset <= |listing| && seen == Upto(listing, offset + limit)
      invariant pages + PagesOf(|listing| - offset, limit) == PagesOf(|s|, limit) + 1
      decreases |listing| - offset
    {
      offset := offset + limit;
      WindowExtends(listing, limit, offset);
      var (nextItems, nextTotal) := ListPaginated(listing, limit, offset);
      items, total := nextItems, nextTotal;
      seen, pages := seen + items, pages + 1;
    }
  }
}
