/** Keyset pagination of the audit list: the query, the handler's cursor, and a client
    that follows cursors to the end (internal/audit/store.go, handler.go). */
module AuditPaging {
  import opened Common
  import opened AuditQuery
  import opened Sql
  import Ordering

  const DEFAULT_LIMIT := 50
  const MAX_LIMIT := 500

  /** The audit_log table, keyed by its primary key. */
  type Table = map<Id, Row>

  ghost predicate ValidTable(t: Table) {
    forall id :: id in t ==> t[id].id == id
  }

  function Clamp(limit: int): nat {
    if limit <= 0 then DEFAULT_LIMIT else if limit > MAX_LIMIT then MAX_LIMIT else limit
  }

  // --------------------------------------------------- newest-first listings

  ghost predicate NewestFirst(rows: seq<Row>) {
    forall i, j :: 0 <= i < j < |rows| ==> Ordering.Less(KeyOf(rows[j]), KeyOf(rows[i]))
  }

  /** rows is the whole answer to q, newest first. */
  ghost predicate Answers(rows: seq<Row>, q: Query, t: Table, hosts: Hosts) {
    NewestFirst(rows) && forall r :: r in rows <==> r.id in t && t[r.id] == r && Wanted(q, r, hosts)
  }

  /** There is only one newest-first listing of the same rows. */
  lemma {:induction false} ListingIsUnique(a: seq<Row>, b: seq<Row>)
    requires NewestFirst(a) && NewestFirst(b) && forall r :: r in a <==> r in b
    ensures a == b
  {
    FirstIsMember(a);
    FirstIsMember(b);
    if a != [] {
      assert a[0] in b && b[0] in a;
      var i :| 0 <= i < |b| && b[i] == a[0];
      var j :| 0 <= j < |a| && a[j] == b[0];
      Ordering.LessIsTotalOrder(KeyOf(a[0]), KeyOf(b[0]), KeyOf(a[0]));
      assert a[0] == b[0];
      forall r
        ensures r in a[1..] <==> r in b[1..]
      {
        RestOf(a, r);
        RestOf(b, r);
      }
      ListingIsUnique(a[1..], b[1..]);
      assert a == [a[0]] + a[1..] && b == [b[0]] + b[1..];
    }
  }

  lemma RestOf(s: seq<Row>, r: Row)
    requires s != [] && NewestFirst(s)
    ensures r in s[1..] <==> r in s && r != s[0]
  {
    assert s == [s[0]] + s[1..];
    Ordering.LessIsTotalOrder(KeyOf(s[0]), KeyOf(s[0]), KeyOf(s[0]));
    assert forall i :: 0 <= i < |s| - 1 ==> s[1..][i] == s[i + 1] && Ordering.Less(KeyOf(s[i + 1]), KeyOf(s[0]));
  }

  /** Rows that answer q, newest first, none of the answers beyond them being as new. */
  ghost predicate Newest(rows: seq<Row>, q: Query, t: Table, hosts: Hosts) {
    && NewestFirst(rows)
    && (forall r :: r in rows ==> r.id in t && t[r.id] == r && Wanted(q, r, hosts))
    && forall r: Row, kept: Row :: r.id in t && t[r.id] == r && Wanted(q, r, hosts) && r !in rows && kept in rows ==>
         Ordering.Less(KeyOf(r), KeyOf(kept))
  }

  ghost predicate MoreBeyond(rows: seq<Row>, q: Query, t: Table, hosts: Hosts) {
    exists r: Row :: r.id in t && t[r.id] == r && Wanted(q, r, hosts) && r !in rows
  }

  lemma PrefixIsNewest(all: seq<Row>, n: nat, q: Query, t: Table, hosts: Hosts)
    requires Answers(all, q, t, hosts) && n <= |all|
    ensures Newest(all[..n], q, t, hosts)
    ensures MoreBeyond(all[..n], q, t, hosts) <==> n < |all|
  {
    forall r, kept | r in all && r !in all[..n] && kept in all[..n]
      ensures Ordering.Less(KeyOf(r), KeyOf(kept))
    {
      var i :| 0 <= i < |all| && all[i] == r;
      var j :| 0 <= j < n && all[..n][j] == kept;
      assert i < n ==> all[..n][i] == r;
    }
    if n < |all| {
      var r := all[n];
      forall i | 0 <= i < n
        ensures all[..n][i] != r
      {
        Ordering.LessIsTotalOrder(KeyOf(all[i]), KeyOf(r), KeyOf(r));
      }
      assert r in all;
    } else {
      assert all[..n] == all;
    }
  }

  // ---------------------------------------------------------------- the query

  /** Runs the statement: filter by the WHERE clause, ORDER BY occurred_at DESC, id DESC, LIMIT n. */
  method Select(cs: seq<Cond>, args: seq<Value>, t: Table, hosts: Hosts, n: nat, ghost q: Query)
    returns (rows: seq<Row>, ghost all: seq<Row>)
    requires ValidTable(t) && |args| == AllParams(cs)
    requires forall r, hosts :: Selected(cs, args, r, hosts) <==> Wanted(q, r, hosts)
    ensures Answers(all, q, t, hosts) && rows == all[..if n < |all| then n else |all|]
    ensures Newest(rows, q, t, hosts) && |rows| <= n && (|rows| < n ==> !MoreBeyond(rows, q, t, hosts))
  {
    var keys := set id | id in t && Selected(cs, args, t[id], hosts) :: KeyOf(t[id]);
    var sorted := Ordering.Sort(keys);
    var listing: seq<Row> := [];
    for i := 0 to |sorted|
      invariant Reverses(listing, sorted[..i])
      invariant forall k :: 0 <= k < i ==>
        listing[k].id in t && t[listing[k].id] == listing[k] && Wanted(q, listing[k], hosts)
    {
      assert sorted[i] in keys;
      listing := [t[sorted[i].id]] + listing;
    }
    assert sorted[..|sorted|] == sorted;
    ReversedAnswers(listing, sorted, q, t, hosts);
    all := listing;
    rows := listing[..if n < |listing| then n else |listing|];
    PrefixIsNewest(all, |rows|, q, t, hosts);
  }

  ghost predicate Reverses(listing: seq<Row>, keys: seq<Ordering.Key>) {
    |listing| == |keys| && forall k :: 0 <= k < |listing| ==> KeyOf(listing[k]) == keys[|keys| - 1 - k]
  }

  lemma ReversedAnswers(listing: seq<Row>, sorted: seq<Ordering.Key>, q: Query, t: Table, hosts: Hosts)
    requires ValidTable(t) && Reverses(listing, sorted) && Ordering.Ascending(sorted)
    requires forall r :: r in listing ==> r.id in t && t[r.id] == r && Wanted(q, r, hosts)
    requires forall id :: id in t && Wanted(q, t[id], hosts) ==> KeyOf(t[id]) in sorted
    ensures Answers(listing, q, t, hosts)
  {
    forall r: Row | r.id in t && t[r.id] == r && Wanted(q, r, hosts)
      ensures r in listing
    {
      var k :| 0 <= k < |sorted| && sorted[k] == KeyOf(r);
      var at := |listing| - 1 - k;
      assert KeyOf(listing[at]) == KeyOf(r) && listing[at] in listing;
    }
  }

  /** One page, and whether at least one more row lies beyond it. */
  method ListQuery(t: Table, hosts: Hosts, q: Query) returns (page: seq<Row>, hasMore: bool, ghost all: seq<Row>)
    requires ValidTable(t)
    ensures Answers(all, q, t, hosts)
    ensures hasMore <==> |all| > Clamp(q.limit)
    ensures page == if hasMore then all[..Clamp(q.limit)] else all
    ensures Newest(page, q, t, hosts) && |page| <= Clamp(q.limit)
    ensures hasMore <==> MoreBeyond(page, q, t, hosts)
    ensures |page| <= 500 && (hasMore ==> |page| == if q.limit <= 0 then 50 else if q.limit > 500 then 500 else q.limit)
  {
    var cs, args := BuildWhere(q);
    var limit := q.limit;
    if limit <= 0 {
      limit := DEFAULT_LIMIT;
    }
    if limit > MAX_LIMIT {
      limit := MAX_LIMIT;
    }
    page, all := Select(cs, args, t, hosts, limit + 1, q);
    hasMore := |page| > limit;
    if hasMore {
      page := page[..limit];
    }
    assert page == all[..|page|];
    PrefixIsNewest(all, |page|, q, t, hosts);
  }

  // --------------------------------------------------------------- the handler

  datatype Response = BadRequest | Page(records: seq<Row>, next: Option<Ordering.Key>)

  /** The list endpoint: half a cursor is refused, and the next cursor is the last record's key. */
  method List(t: Table, hosts: Hosts, q: Query) returns (resp: Response, ghost all: seq<Row>)
    requires ValidTable(t)
    ensures resp.BadRequest? <==> ((q.afterId == "") != (q.afterMillis == 0))
    ensures resp.Page? ==> Answers(all, q, t, hosts)
    ensures resp.Page? && |all| <= Clamp(q.limit) ==> resp.records == all && resp.next == None
    ensures resp.Page? && |all| > Clamp(q.limit) ==>
      resp.records == all[..Clamp(q.limit)] && resp.next == Some(KeyOf(all[Clamp(q.limit) - 1]))
  {
    all := [];
    if (q.afterId == "") != (q.afterMillis == 0) {
      return BadRequest, all;
    }
    var recs, hasMore;
    recs, hasMore, all := ListQuery(t, hosts, q);
    var next: Option<Ordering.Key> := None;
    if hasMore && |recs| > 0 {
      next := Some(KeyOf(Last(recs)));
    }
    resp := Page(recs, next);
  }

  // ------------------------------------------------------- following the cursor

  function At(q: Query, k: Ordering.Key, limit: int): Query {
    q.(afterMillis := k.at, afterId := k.id, limit := limit)
  }

  /** The table may only gain rows newer than everything it held at the start. */
  ghost predicate GrowsAtTheTop(first: Table, t: Table) {
    && ValidTable(t)
    && (forall id :: id in first ==> id in t && t[id] == first[id])
    && (forall id :: id in t && id !in first ==>
          forall kept :: kept in first ==> Ordering.Less(KeyOf(first[kept]), KeyOf(t[id])))
  }

  /** A row with this key yields a cursor the handler accepts and the store obeys. */
  predicate UsableCursor(k: Ordering.Key) {
    k.at > 0 && k.id != ""
  }

  /** The rest of the answer, seen from a cursor in the middle of it. */
  lemma RestFromCursor(
    q: Query, first: Table, t: Table, hosts: Hosts, all: seq<Row>, n: nat, rest: seq<Row>, limit: int)
    requires ValidTable(first) && GrowsAtTheTop(first, t) && !HasCursor(q)
    requires Answers(all, q, first, hosts) && 0 < n <= |all| && UsableCursor(KeyOf(all[n - 1]))
    requires Answers(rest, At(q, KeyOf(all[n - 1]), limit), t, hosts)
    ensures rest == all[n..]
  {
    var k := KeyOf(all[n - 1]);
    assert all[n - 1] in all;
    assert forall id :: id in t && id !in first ==> Ordering.Less(k, KeyOf(t[id]));
    forall r
      ensures r in rest <==> r in all[n..]
    {
      WantedFromCursor(q, k, limit, r, hosts);
      Ordering.LessIsTotalOrder(KeyOf(r), k, KeyOf(r));
      if r in rest {
        assert r in all;
        var i :| 0 <= i < |all| && all[i] == r;
        assert i >= n;
        assert all[n..][i - n] == r;
      }
      if r in all[n..] {
        var i :| 0 <= i < |all[n..]| && all[n..][i] == r;
        assert all[n + i] == r;
      }
    }
    forall i, j | 0 <= i < j < |all[n..]|
      ensures Ordering.Less(KeyOf(all[n..][j]), KeyOf(all[n..][i]))
    {
      assert all[n..][i] == all[n + i] && all[n..][j] == all[n + j];
    }
    ListingIsUnique(rest, all[n..]);
  }

  lemma WantedFromCursor(q: Query, k: Ordering.Key, limit: int, r: Row, hosts: Hosts)
    requires !HasCursor(q) && UsableCursor(k)
    ensures Wanted(At(q, k, limit), r, hosts) <==> Wanted(q, r, hosts) && Ordering.Less(KeyOf(r), k)
  {
    var q' := At(q, k, limit);
    assert forall f :: f != ByCursor ==> (Fits(q', f, r, hosts) <==> Fits(q, f, r, hosts));
    assert Fits(q', ByCursor, r, hosts) <==> Ordering.Less(KeyOf(r), k);
    assert Fits(q, ByCursor, r, hosts);
  }

  /** page is all there is, or the beginning of it with the cursor of its last row. */
  predicate Begins(page: seq<Row>, next: Option<Ordering.Key>, all: seq<Row>) {
    if next.None? then page == all
    else 0 < |page| < |all| && page == all[..|page|] && next.value == KeyOf(Last(page))
  }

  /** A page of the rest after a beginning makes a longer beginning. */
  lemma BeginsLater(seen: seq<Row>, cursor: Ordering.Key, page: seq<Row>, next: Option<Ordering.Key>, all: seq<Row>)
    requires Begins(seen, Some(cursor), all) && Begins(page, next, all[|seen|..])
    ensures Begins(seen + page, next, all) && page != []
  {
    PageExtends(all, |seen|, page);
  }

  /** The page after the first n rows, asked for with the cursor of the n-th. */
  method NextPage(
      first: Table, t: Table, hosts: Hosts, q: Query, limit: int, cursor: Ordering.Key,
      ghost all: seq<Row>, ghost n: nat)
    returns (resp: Response)
    requires q.afterMillis == 0 && q.afterId == "" && ValidTable(first) && GrowsAtTheTop(first, t)
    requires Answers(all, q, first, hosts) && 0 < n <= |all| && cursor == KeyOf(all[n - 1]) && UsableCursor(cursor)
    ensures resp.Page?
    ensures |all| - n <= Clamp(limit) ==> resp.records == all[n..] && resp.next == None
    ensures |all| - n > Clamp(limit) ==>
      resp.records == all[n..n + Clamp(limit)] && resp.next == Some(KeyOf(all[n + Clamp(limit) - 1]))
    ensures Begins(resp.records, resp.next, all[n..])
  {
    ghost var rest;
    resp, rest := List(t, hosts, At(q, cursor, limit));
    RestFromCursor(q, first, t, hosts, all, n, rest, limit);
  }

  /** The first page, asked for without a cursor. */
  method FirstPage(t: Table, hosts: Hosts, q: Query, limit: int) returns (resp: Response, ghost all: seq<Row>)
    requires q.afterMillis == 0 && q.afterId == "" && ValidTable(t)
    ensures Answers(all, q, t, hosts) && resp.Page?
    ensures |all| <= Clamp(limit) ==> resp.records == all && resp.next == None
    ensures |all| > Clamp(limit) ==>
      resp.records == all[..Clamp(limit)] && resp.next == Some(KeyOf(all[Clamp(limit) - 1]))
  {
    resp, all := List(t, hosts, q.(limit := limit));
    SameAnswers(q, limit, t, hosts, all);
  }

  /** A client that follows the next cursor until there is none, with any page sizes,
      while rows are being appended. It sees the rows that answered at the start, each
      exactly once, newest first, and stops; it sees all of them unless a page ends at a
      row whose cursor is refused or ignored. */
  method FollowPages(tables: nat -> Table, limits: nat -> int, hosts: Hosts, q: Query)
    returns (seen: seq<Row>, pages: nat, next: Option<Ordering.Key>, ghost all: seq<Row>)
    requires q.afterMillis == 0 && q.afterId == ""
    requires ValidTable(tables(0)) && forall n: nat :: GrowsAtTheTop(tables(0), tables(n))
    ensures Answers(all, q, tables(0), hosts) && Begins(seen, next, all)
    ensures next.Some? ==> !UsableCursor(next.value)
  {
    var resp;
    resp, all := FirstPage(tables(0), hosts, q, limits(0));
    seen, pages := resp.records, 1;
    while resp.next.Some? && UsableCursor(resp.next.value)
      invariant resp.Page? && Begins(seen, resp.next, all)
      decreases |all| - |seen|
    {
      var cursor := resp.next.value;
      resp := NextPage(tables(0), tables(pages), hosts, q, limits(pages), cursor, all, |seen|);
      BeginsLater(seen, cursor, resp.records, resp.next, all);
      seen, pages := seen + resp.records, pages + 1;
    }
    next := resp.next;
  }

  // ------------------------------------------ rows inserted and deleted meanwhile

  /** What one page is read from. */
  datatype Reading = Reading(table: Table, hosts: Hosts)

  ghost predicate Answer(r: Row, q: Query, w: Reading) {
    r.id in w.table && w.table[r.id] == r && Wanted(q, r, w.hosts)
  }

  predicate Below(r: Row, end: Option<Ordering.Key>) {
    end.Some? && Ordering.Less(KeyOf(r), end.value)
  }

  /** r answered at some of the first n readings. */
  ghost predicate EverAnswered(r: Row, q: Query, ws: nat -> Reading, n: nat) {
    exists m: nat :: m < n && Answer(r, q, ws(m))
  }

  /** And at all of them. */
  ghost predicate AlwaysAnswered(r: Row, q: Query, ws: nat -> Reading, n: nat) {
    forall m: nat :: m < n ==> Answer(r, q, ws(m))
  }

  /** seen is newest first, down to end; each row of it answered when it was read, and no row
      above end that answered all along is left out. */
  ghost predicate SeenDownTo(seen: seq<Row>, end: Option<Ordering.Key>, q: Query, ws: nat -> Reading, n: nat) {
    && NewestFirst(seen)
    && (forall r :: r in seen ==> EverAnswered(r, q, ws, n) && !Below(r, end))
    && (forall r :: AlwaysAnswered(r, q, ws, n) ==> r in seen || Below(r, end))
  }

  /** A page of the answers below the cursor. */
  lemma PageBelow(
    cursor: Ordering.Key, page: seq<Row>, next: Option<Ordering.Key>, all: seq<Row>, q: Query, limit: int, w: Reading)
    requires !HasCursor(q) && UsableCursor(cursor) && ValidTable(w.table)
    requires Answers(all, At(q, cursor, limit), w.table, w.hosts) && Begins(page, next, all)
    ensures forall r :: r in page ==> Answer(r, q, w) && Ordering.Less(KeyOf(r), cursor) && !Below(r, next)
    ensures forall r :: Answer(r, q, w) && Ordering.Less(KeyOf(r), cursor) ==> r in page || Below(r, next)
  {
    forall r | r in page
      ensures Answer(r, q, w) && Ordering.Less(KeyOf(r), cursor) && !Below(r, next)
    {
      var i :| 0 <= i < |page| && page[i] == r;
      assert all[i] == r;
      WantedFromCursor(q, cursor, limit, r, w.hosts);
      if next.Some? {
        NotBelowLast(page, i);
      }
    }
    forall r | Answer(r, q, w) && Ordering.Less(KeyOf(r), cursor) && r !in page
      ensures Below(r, next)
    {
      WantedFromCursor(q, cursor, limit, r, w.hosts);
      assert r in all;
      BeyondPage(all, page, r);
    }
  }

  /** A page of the answers below the cursor goes on from what was seen. */
  lemma PageGoesOn(
    seen: seq<Row>, cursor: Ordering.Key, page: seq<Row>, next: Option<Ordering.Key>, all: seq<Row>, q: Query,
    limit: int, ws: nat -> Reading, n: nat)
    requires !HasCursor(q) && UsableCursor(cursor) && ValidTable(ws(n).table)
    requires SeenDownTo(seen, Some(cursor), q, ws, n)
    requires Answers(all, At(q, cursor, limit), ws(n).table, ws(n).hosts) && Begins(page, next, all)
    ensures SeenDownTo(seen + page, next, q, ws, n + 1)
  {
    PageBelow(cursor, page, next, all, q, limit, ws(n));
    forall r | r in seen + page
      ensures EverAnswered(r, q, ws, n + 1) && !Below(r, next)
    {
      if r in page {
        assert Answer(r, q, ws(n));
      } else {
        var m: nat :| m < n && Answer(r, q, ws(m));
        NotBelowLater(r, cursor, page, next);
      }
    }
    forall r | AlwaysAnswered(r, q, ws, n + 1) && r !in seen + page
      ensures Below(r, next)
    {
      assert Answer(r, q, ws(n)) && AlwaysAnswered(r, q, ws, n);
    }
    SeenThenPage(seen, page, cursor);
  }

  /** What is not below a cursor is not below the one of a row that is. */
  lemma NotBelowLater(r: Row, cursor: Ordering.Key, page: seq<Row>, next: Option<Ordering.Key>)
    requires !Ordering.Less(KeyOf(r), cursor) && forall x :: x in page ==> Ordering.Less(KeyOf(x), cursor)
    requires next.Some? ==> page != [] && next.value == KeyOf(Last(page))
    ensures !Below(r, next)
  {
    if next.Some? {
      assert Last(page) in page;
      Ordering.LessIsTotalOrder(KeyOf(r), next.value, cursor);
    }
  }

  lemma NotBelowLast(page: seq<Row>, i: nat)
    requires NewestFirst(page) && i < |page|
    ensures !Ordering.Less(KeyOf(page[i]), KeyOf(Last(page)))
  {
    Ordering.LessIsTotalOrder(KeyOf(page[i]), KeyOf(Last(page)), KeyOf(page[i]));
  }

  lemma BeyondPage(all: seq<Row>, page: seq<Row>, r: Row)
    requires NewestFirst(all) && r in all && r !in page && |page| <= |all| && page == all[..|page|]
    ensures |page| < |all| && (page != [] ==> Ordering.Less(KeyOf(r), KeyOf(Last(page))))
  {
    var i :| 0 <= i < |all| && all[i] == r;
    assert page != [] ==> Last(page) == all[|page| - 1];
  }

  lemma SeenThenPage(seen: seq<Row>, page: seq<Row>, cursor: Ordering.Key)
    requires NewestFirst(seen) && NewestFirst(page)
    requires forall r :: r in seen ==> !Ordering.Less(KeyOf(r), cursor)
    requires forall r :: r in page ==> Ordering.Less(KeyOf(r), cursor)
    ensures NewestFirst(seen + page)
  {
    var both := seen + page;
    forall i, j | 0 <= i < j < |both|
      ensures Ordering.Less(KeyOf(both[j]), KeyOf(both[i]))
    {
      if i < |seen| <= j {
        assert both[i] in seen && both[j] in page;
        Ordering.LessIsTotalOrder(KeyOf(both[j]), cursor, KeyOf(both[i]));
        Ordering.LessIsTotalOrder(KeyOf(both[i]), cursor, KeyOf(both[j]));
      }
    }
  }

  /** The rows still to come. */
  ghost function Left(t: Table, cursor: Ordering.Key): set<Id> {
    set id | id in t && Ordering.Less(KeyOf(t[id]), cursor)
  }

  lemma FewerLeft(t: Table, cursor: Ordering.Key, next: Ordering.Key, r: Row)
    requires r.id in t && t[r.id] == r && KeyOf(r) == next && Ordering.Less(next, cursor)
    ensures Left(t, next) < Left(t, cursor)
  {
    forall id | id in Left(t, next)
      ensures id in Left(t, cursor)
    {
      Ordering.LessIsTotalOrder(KeyOf(t[id]), next, cursor);
    }
    Ordering.LessIsTotalOrder(next, next, next);
    assert r.id in Left(t, cursor) && r.id !in Left(t, next);
  }

  /** The next page of the answers in the table as it is now. */
  method PageNow(t: Table, hosts: Hosts, q: Query, limit: int, cursor: Option<Ordering.Key>)
    returns (resp: Response, ghost all: seq<Row>)
    requires q.afterMillis == 0 && q.afterId == "" && ValidTable(t) && (cursor.Some? ==> UsableCursor(cursor.value))
    ensures resp.Page?
    ensures Answers(all, if cursor.Some? then At(q, cursor.value, limit) else q, t, hosts)
    ensures Begins(resp.records, resp.next, all)
  {
    if cursor.Some? {
      resp, all := List(t, hosts, At(q, cursor.value, limit));
    } else {
      resp, all := FirstPage(t, hosts, q, limit);
    }
  }

  /** A client that follows cursors while rows are inserted and deleted, and systems change
      group, between the pages; the table does not change any more from the reading numbered
      settled on. It stops, having seen every row that answered all along exactly once, newest
      first, unless a page ends at a row whose cursor is refused or ignored, down to which it
      has; and whatever it saw answered when it was read. */
  method FollowWhileChanging(ws: nat -> Reading, limits: nat -> int, q: Query, ghost settled: nat)
    returns (seen: seq<Row>, pages: nat, next: Option<Ordering.Key>)
    requires q.afterMillis == 0 && q.afterId == ""
    requires forall n: nat :: ValidTable(ws(n).table)
    requires forall n: nat :: n >= settled ==> ws(n).table == ws(settled).table
    ensures pages > 0 && SeenDownTo(seen, next, q, ws, pages)
    ensures next.Some? ==> !UsableCursor(next.value)
  {
    ghost var all;
    var resp;
    resp, all := PageNow(ws(0).table, ws(0).hosts, q, limits(0), None);
    FirstGoesOn(resp.records, resp.next, all, q, ws);
    seen, pages := resp.records, 1;
    while resp.next.Some? && UsableCursor(resp.next.value)
      invariant pages > 0 && resp.Page?
      invariant SeenDownTo(seen, resp.next, q, ws, pages)
      decreases if pages < settled then settled - pages else 0,
                if resp.next.Some? then |Left(ws(settled).table, resp.next.value)| + 1 else 0
    {
      var cursor := resp.next.value;
      resp, all := PageNow(ws(pages).table, ws(pages).hosts, q, limits(pages), Some(cursor));
      PageGoesOn(seen, cursor, resp.records, resp.next, all, q, limits(pages), ws, pages);
      if resp.next.Some? {
        CursorFalls(cursor, resp.records, resp.next.value, all, q, limits(pages), ws(pages).table, ws(pages).hosts);
      }
      seen, pages := seen + resp.records, pages + 1;
    }
    next := resp.next;
  }

  /** Rows are only ever added. */
  ghost predicate Grows(before: Table, after: Table) {
    forall id :: id in before ==> id in after && after[id] == before[id]
  }

  /** While rows are only inserted, but anywhere, every row that answered at the start is seen
      exactly once, and everything seen answers still. */
  method FollowWhileGrowing(
      tables: nat -> Table, limits: nat -> int, hosts: Hosts, q: Query, ghost settled: nat)
    returns (seen: seq<Row>, pages: nat, next: Option<Ordering.Key>)
    requires q.afterMillis == 0 && q.afterId == ""
    requires forall n: nat :: ValidTable(tables(n))
    requires forall m: nat, n: nat :: m <= n ==> Grows(tables(m), tables(n))
    requires forall n: nat :: n >= settled ==> tables(n) == tables(settled)
    ensures pages > 0 && NewestFirst(seen) && (next.Some? ==> !UsableCursor(next.value))
    ensures forall r :: r in seen ==> Answer(r, q, Reading(tables(pages - 1), hosts)) && !Below(r, next)
    ensures forall r :: Answer(r, q, Reading(tables(0), hosts)) ==> r in seen || Below(r, next)
  {
    var ws := (n: nat) => Reading(tables(n), hosts);
    seen, pages, next := FollowWhileChanging(ws, limits, q, settled);
    forall r | r in seen
      ensures Answer(r, q, Reading(tables(pages - 1), hosts))
    {
      var m: nat :| m < pages && Answer(r, q, ws(m));
      assert Grows(tables(m), tables(pages - 1));
    }
    forall r | Answer(r, q, Reading(tables(0), hosts))
      ensures AlwaysAnswered(r, q, ws, pages)
    {
      forall m: nat | m < pages
        ensures Answer(r, q, ws(m))
      {
        assert Grows(tables(0), tables(m));
      }
    }
  }

  /** The next cursor leaves less to come. */
  lemma CursorFalls(
    cursor: Ordering.Key, page: seq<Row>, next: Ordering.Key, all: seq<Row>, q: Query, limit: int, t: Table,
    hosts: Hosts)
    requires !HasCursor(q) && UsableCursor(cursor)
    requires Answers(all, At(q, cursor, limit), t, hosts) && Begins(page, Some(next), all)
    ensures |Left(t, next)| < |Left(t, cursor)|
  {
    var r := Last(page);
    assert r == all[|page| - 1] && r in all;
    WantedFromCursor(q, cursor, limit, r, hosts);
    FewerLeft(t, cursor, next, r);
    SubsetIsSmaller(Left(t, next), Left(t, cursor));
  }

  lemma SubsetIsSmaller(a: set<Id>, b: set<Id>)
    requires a < b
    ensures |a| < |b|
  {
    assert a + (b - a) == b && |b - a| > 0;
  }

  lemma FirstGoesOn(page: seq<Row>, next: Option<Ordering.Key>, all: seq<Row>, q: Query, ws: nat -> Reading)
    requires ValidTable(ws(0).table) && Answers(all, q, ws(0).table, ws(0).hosts)
    requires Begins(page, next, all)
    ensures SeenDownTo(page, next, q, ws, 1)
  {
    forall r | r in page
      ensures EverAnswered(r, q, ws, 1) && !Below(r, next)
    {
      var i :| 0 <= i < |page| && page[i] == r;
      assert all[i] == r && Answer(r, q, ws(0));
      if next.Some? {
        NotBelowLast(page, i);
      }
    }
    forall r | AlwaysAnswered(r, q, ws, 1) && r !in page
      ensures Below(r, next)
    {
      assert Answer(r, q, ws(0)) && r in all;
      BeyondPage(all, page, r);
    }
  }

  lemma PageExtends(all: seq<Row>, n: nat, page: seq<Row>)
    requires n + |page| <= |all| && page == all[n..n + |page|]
    ensures all[..n] + page == all[..n + |page|]
    ensures n + |page| == |all| ==> all[..n] + page == all
  {
  }

  lemma SameAnswers(q: Query, limit: int, t: Table, hosts: Hosts, rows: seq<Row>)
    requires Answers(rows, q.(limit := limit), t, hosts)
    ensures Answers(rows, q, t, hosts)
  {
    forall r
      ensures Wanted(q.(limit := limit), r, hosts) <==> Wanted(q, r, hosts)
    {
      assert forall f :: Fits(q.(limit := limit), f, r, hosts) <==> Fits(q, f, r, hosts);
    }
  }

  /** What an unusable cursor does. With half of it zero or empty, as for a row of time zero,
      the handler refuses it; any other, as for a row before zero, the store ignores, so that
      the client is sent back to the beginning. */
  lemma UnusableCursors(q: Query, k: Ordering.Key, limit: int)
    requires q.afterMillis == 0 && q.afterId == ""
    ensures var q' := At(q, k, limit);
      var refused := (q'.afterId == "") != (q'.afterMillis == 0);
      && (UsableCursor(k) <==> !refused && k.at > 0)
      && (refused <==> (k.at == 0 && k.id != "") || (k.at != 0 && k.id == ""))
      && (!refused && !UsableCursor(k) ==> forall r, hosts :: Wanted(q', r, hosts) <==> Wanted(q, r, hosts))
  {
    if k.at <= 0 {
      forall r, hosts
        ensures Wanted(At(q, k, limit), r, hosts) <==> Wanted(q, r, hosts)
      {
        assert forall f :: Fits(At(q, k, limit), f, r, hosts) <==> Fits(q, f, r, hosts);
      }
    }
  }
}
