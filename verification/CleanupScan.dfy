/** The database half of RunResourceCleanup (server/ResourceServer/src/ResourceServer.cpp): a keyset
    scan that fails the rows it visits while it pages over them. */
module CleanupScan {
  import opened Basics
  import opened Store
  import opened Dao

  /** kCleanupPageSize, and kResourceRetentionSeconds: seven days. */
  const PAGE_SIZE: nat := 200
  const RETENTION: int := 604800

  type Cursor = Option<(int, int)>

  /** ORDER BY created_at, message_id. */
  predicate Before(a: (int, int), b: (int, int)) {
    a.0 < b.0 || (a.0 == b.0 && a.1 < b.1)
  }

  predicate After(cursor: Cursor, k: (int, int)) {
    cursor.Some? ==> Before(cursor.value, k)
  }

  function KeyOf(db: Db, id: int): (int, int)
    requires id in db.messages
  {
    (db.messages[id].createdAt, id)
  }

  /** The WHERE clause without the cursor. */
  predicate IsCandidate(db: Db, before: int, id: int) {
    && id in db.messages && db.messages[id].status == Pending && IsResourceKind(db.messages[id].kind)
    && db.messages[id].createdAt < before
  }

  ghost predicate Ordered(db: Db, ids: seq<int>) {
    && (forall i :: 0 <= i < |ids| ==> ids[i] in db.messages)
    && (forall i, j :: 0 <= i < j < |ids| ==> Before(KeyOf(db, ids[i]), KeyOf(db, ids[j])))
  }

  /** What GetExpiredResourceIds may answer: the first candidates past the cursor, in order. */
  ghost predicate IsPage(db: Db, before: int, cursor: Cursor, page: seq<int>) {
    && |page| <= PAGE_SIZE && Ordered(db, page)
    && (forall id :: id in page ==> IsCandidate(db, before, id) && After(cursor, KeyOf(db, id)))
    && (forall id :: IsCandidate(db, before, id) && After(cursor, KeyOf(db, id)) && id !in page ==>
          |page| == PAGE_SIZE && forall p :: p in page ==> Before(KeyOf(db, p), KeyOf(db, id)))
  }

  /** mtime 0 stands for a missing file. */
  predicate IsStale(mtime: map<int, int>, now: int, id: int) {
    id !in mtime || mtime[id] == 0 || mtime[id] < now - RETENTION
  }

  /** A picture or file that has been pending for more than seven days. */
  predicate IsAbandoned(row: Message, now: int) {
    row.status == Pending && row.kind in {PIC, FILE} && row.createdAt < now - 7 * 24 * 3600
  }

  /** The rows left past the cursor: the scan's measure. */
  function Remaining(db: Db, before: int, cursor: Cursor): set<int> {
    set id | id in db.messages && IsCandidate(db, before, id) && After(cursor, KeyOf(db, id))
  }

  /** A page that sees a cursor skips nothing before its last row and moves past all it returns. */
  lemma PageAdvances(db: Db, before: int, cursor: Cursor, page: seq<int>)
    requires IsPage(db, before, cursor, page) && page != []
    ensures var next := Some(KeyOf(db, page[|page| - 1]));
            && (forall id :: id in Remaining(db, before, next) ==> id in Remaining(db, before, cursor) && id !in page)
            && (forall id :: id in Remaining(db, before, cursor) && id !in page ==> id in Remaining(db, before, next))
            && page[|page| - 1] in Remaining(db, before, cursor)
  {
    var last := page[|page| - 1];
    var next := Some(KeyOf(db, last));
    forall id | id in Remaining(db, before, next) ensures id in Remaining(db, before, cursor) && id !in page {
      assert last in page && After(cursor, KeyOf(db, last));
      forall i | 0 <= i < |page| ensures page[i] != id {
        assert i < |page| - 1 ==> Before(KeyOf(db, page[i]), KeyOf(db, last));
      }
    }
  }

  // ---- The scan as a whole ---------------------------------------------------------------------------------

  /** The row after the scan looked at it. */
  function Swept(row: Message, hit: bool): Message {
    if hit then row.(status := Failed) else row
  }

  /** `visited` are, in key order, the candidates of `start` up to the cursor; exactly the stale ones
      among them have been failed. */
  ghost predicate ScanInv(start: Db, db: Db, before: int, stale: set<int>, cursor: Cursor, visited: seq<int>) {
    && db.messages.Keys == start.messages.Keys
    && Ordered(start, visited)
    && (forall id :: id in visited ==> IsCandidate(start, before, id) && !After(cursor, KeyOf(start, id)))
    && (forall id :: IsCandidate(start, before, id) ==> id in visited || After(cursor, KeyOf(start, id)))
    && (forall id :: id in db.messages ==> db.messages[id] == Swept(start.messages[id], id in visited && id in stale))
  }

  lemma ScanSeesTheRest(start: Db, db: Db, before: int, stale: set<int>, cursor: Cursor, visited: seq<int>)
    requires ScanInv(start, db, before, stale, cursor, visited)
    ensures Remaining(db, before, cursor) == Remaining(start, before, cursor)
    ensures forall id :: id in db.messages ==> KeyOf(db, id) == KeyOf(start, id)
  {
  }

  /** One page, whose stale rows are failed, carries the invariant to the next cursor. */
  lemma PageKeepsScan(start: Db, db: Db, before: int, stale: set<int>, cursor: Cursor, visited: seq<int>, page: seq<int>, hits: seq<int>)
    requires ScanInv(start, db, before, stale, cursor, visited) && IsPage(db, before, cursor, page) && page != []
    requires forall id :: id in hits <==> id in page && id in stale
    ensures page[|page| - 1] in db.messages
    ensures ScanInv(start, Expire(db, hits), before, stale, Some(KeyOf(db, page[|page| - 1])), visited + page)
  {
    ScanSeesTheRest(start, db, before, stale, cursor, visited);
    PageAdvances(db, before, cursor, page);
    PageKeepsOrder(start, db, before, stale, cursor, visited, page);
    var next := Some(KeyOf(db, page[|page| - 1]));
    forall id | id in visited + page ensures IsCandidate(start, before, id) && !After(next, KeyOf(start, id)) {
      if id in page {
        assert id in Remaining(start, before, cursor);
        assert id !in Remaining(db, before, next);
      } else {
        assert !After(cursor, KeyOf(start, id));
        assert page[|page| - 1] in page && After(cursor, KeyOf(db, page[|page| - 1]));
      }
    }
    forall id | IsCandidate(start, before, id) ensures id in visited + page || After(next, KeyOf(start, id)) {
      if id !in visited && id !in page {
        assert id in Remaining(start, before, cursor);
        assert id in Remaining(db, before, next);
      }
    }
  }

  lemma PageKeepsOrder(start: Db, db: Db, before: int, stale: set<int>, cursor: Cursor, visited: seq<int>, page: seq<int>)
    requires ScanInv(start, db, before, stale, cursor, visited) && IsPage(db, before, cursor, page)
    ensures Ordered(start, visited + page)
  {
    ScanSeesTheRest(start, db, before, stale, cursor, visited);
    var all := visited + page;
    forall i, j | 0 <= i < j < |all| ensures Before(KeyOf(start, all[i]), KeyOf(start, all[j])) {
      if i < |visited| <= j {
        assert all[i] in visited && all[j] in page;
        assert !After(cursor, KeyOf(start, all[i])) && After(cursor, KeyOf(db, all[j]));
      }
    }
  }

  /** A short page is the last one. */
  lemma ShortPageEnds(start: Db, db: Db, before: int, stale: set<int>, cursor: Cursor, visited: seq<int>, page: seq<int>)
    requires ScanInv(start, db, before, stale, cursor, visited) && IsPage(db, before, cursor, page) && |page| < PAGE_SIZE
    ensures forall id :: IsCandidate(start, before, id) ==> id in visited + page
  {
    ScanSeesTheRest(start, db, before, stale, cursor, visited);
    forall id | IsCandidate(start, before, id) ensures id in visited + page {
      if id !in visited {
        assert id in Remaining(db, before, cursor);
      }
    }
  }

  class Cleaner {
    const db: Database

    constructor (db: Database)
      ensures this.db == db
    {
      this.db := db;
    }

    /** GetExpiredResourceIds, as the loop of an index scan: the smallest remaining key first. */
    method GetExpiredResourceIds(before: int, cursor: Cursor) returns (page: seq<int>)
      ensures IsPage(db.View(), before, cursor, page)
    {
      page := [];
      ghost var tables := db.View();
      var left := Remaining(db.View(), before, cursor);
      while left != {} && |page| < PAGE_SIZE
        invariant |page| <= PAGE_SIZE && Ordered(tables, page) && tables == db.View()
        invariant forall id :: id in page ==> id in Remaining(tables, before, cursor) && id !in left
        invariant forall id :: id in Remaining(tables, before, cursor) ==> id in left || id in page
        invariant left <= Remaining(tables, before, cursor)
        invariant forall p, id :: p in page && id in left ==> Before(KeyOf(tables, p), KeyOf(tables, id))
        decreases left
      {
        var id := First(left);
        page := page + [id];
        left := left - {id};
      }
    }

    /** The smallest key of a set of rows. */
    method First(ids: set<int>) returns (first: int)
      requires ids != {} && ids <= db.messages.Keys
      ensures first in ids
      ensures forall id :: id in ids && id != first ==> Before(KeyOf(db.View(), first), KeyOf(db.View(), id))
    {
      ghost var tables := db.View();
      HasMember(ids);
      first :| first in ids;
      var todo := ids - {first};
      while todo != {}
        invariant todo <= ids && first in ids && first !in todo
        invariant forall id :: id in ids && id !in todo && id != first ==> Before(KeyOf(tables, first), KeyOf(tables, id))
        decreases todo
      {
        HasMember(todo);
        var id :| id in todo;
        todo := todo - {id};
        if db.messages[id].createdAt < db.messages[first].createdAt
           || (db.messages[id].createdAt == db.messages[first].createdAt && id < first) {
          first := id;
        }
      }
    }

    /** The rows of a page whose part is missing or stale. */
    method StaleOf(page: seq<int>, now: int, mtime: map<int, int>) returns (hits: seq<int>)
      ensures forall id :: id in hits <==> id in page && IsStale(mtime, now, id)
    {
      hits := [];
      for k := 0 to |page|
        invariant forall id :: id in hits <==> id in page[..k] && IsStale(mtime, now, id)
      {
        assert page[..k + 1] == page[..k] + [page[k]];
        if IsStale(mtime, now, page[k]) {
          hits := hits + [page[k]];
        }
      }
      assert page[..|page|] == page;
    }

    /** One round; false ends the loop. */
    method ScanRound(ghost start: Db, ghost stale: set<int>, now: int, mtime: map<int, int>, cursor: Cursor, visited: seq<int>, fault: RoundFault)
      returns (more: bool, cursor': Cursor, visited': seq<int>)
      requires db.Valid() && ScanInv(start, db.View(), now - RETENTION, stale, cursor, visited)
      requires stale == set id | id in start.messages && IsStale(mtime, now, id)
      modifies db
      ensures db.Valid() && OnlyStaleFailed(start, db.View(), now - RETENTION, stale, visited')
      ensures more ==> ScanInv(start, db.View(), now - RETENTION, stale, cursor', visited')
      ensures more ==> Remaining(start, now - RETENTION, cursor') < Remaining(start, now - RETENTION, cursor)
      ensures !more && fault == NO_FAULT ==> Finished(start, db.View(), now - RETENTION, stale, visited')
    {
      var before := now - RETENTION;
      ScanIsPartial(start, db.View(), before, stale, cursor, visited, []);
      if fault.queryFails {
        return false, cursor, visited;
      }
      var page := GetExpiredResourceIds(before, cursor);
      if page == [] {
        ShortScanIsFinished(start, db.View(), before, stale, cursor, visited, page, db.View());
        return false, cursor, visited;
      }
      var hits := StaleOf(page, now, mtime);
      ghost var after := Expire(db.View(), hits);
      PageKeepsScan(start, db.View(), before, stale, cursor, visited, page, hits);
      PageShrinksRest(start, db.View(), before, stale, cursor, visited, page);
      ScanIsPartial(start, db.View(), before, stale, cursor, visited, page);
      var last := (db.messages[page[|page| - 1]].createdAt, page[|page| - 1]);
      ScanIsPartial(start, after, before, stale, Some(last), visited + page, []);
      if |page| < PAGE_SIZE {
        ShortScanIsFinished(start, db.View(), before, stale, cursor, visited, page, after);
      }
      var ok := db.MarkResourceExpired(hits, fault.mark);
      if !ok {
        return false, cursor, visited + page;
      }
      return |page| == PAGE_SIZE, Some(last), visited + page;
    }

    /** The scan.  Whatever fails, it has visited old pending resource rows in key order and failed
        only stale ones among them; without faults it has visited all of them and failed exactly
        the stale ones. */
    method Scan(now: int, mtime: map<int, int>, faults: seq<RoundFault>) returns (visited: seq<int>)
      requires db.Valid()
      modifies db
      ensures db.Valid()
      ensures var stale := set id | id in old(db.messages) && IsStale(mtime, now, id);
              && OnlyStaleFailed(old(db.View()), db.View(), now - RETENTION, stale, visited)
              && (faults == [] ==> Finished(old(db.View()), db.View(), now - RETENTION, stale, visited))
      ensures forall id :: id in old(db.messages) && id in mtime && mtime[id] != 0 && mtime[id] >= now - 7 * 24 * 3600 ==>
                id in db.messages && db.messages[id] == old(db.messages)[id]
      ensures faults == [] ==>
                forall id :: id in old(db.messages) && IsAbandoned(old(db.messages)[id], now) && (id !in mtime || mtime[id] == 0 || mtime[id] < now - 7 * 24 * 3600) ==>
                  id in db.messages && db.messages[id] == old(db.messages)[id].(status := Failed)
    {
      ghost var start := db.View();
      ghost var stale := set id | id in start.messages && IsStale(mtime, now, id);
      var cursor: Cursor := None;
      visited := [];
      var round, more := 0, true;
      while more
        invariant db.Valid() && OnlyStaleFailed(start, db.View(), now - RETENTION, stale, visited)
        invariant more ==> ScanInv(start, db.View(), now - RETENTION, stale, cursor, visited)
        invariant !more && faults == [] ==> Finished(start, db.View(), now - RETENTION, stale, visited)
        decreases more, Remaining(start, now - RETENTION, cursor)
      {
        var fault := if round < |faults| then faults[round] else NO_FAULT;
        more, cursor, visited := ScanRound(start, stale, now, mtime, cursor, visited, fault);
        round := round + 1;
      }
    }
  }

  /** How one round may fail. */
  datatype RoundFault = RoundFault(queryFails: bool, mark: Fault)

  const NO_FAULT := RoundFault(false, Clean)

  /** `visited` are old pending resource rows in key order, and only stale ones of them changed. */
  ghost predicate OnlyStaleFailed(start: Db, db: Db, before: int, stale: set<int>, visited: seq<int>) {
    && db.messages.Keys == start.messages.Keys
    && Ordered(start, visited)
    && (forall id :: id in visited ==> IsCandidate(start, before, id))
    && (forall id :: id in db.messages ==>
          db.messages[id] == start.messages[id] || (id in visited && id in stale && db.messages[id] == Swept(start.messages[id], true)))
  }

  /** Every old pending resource row was visited, and exactly the stale ones are failed now. */
  ghost predicate Finished(start: Db, db: Db, before: int, stale: set<int>, visited: seq<int>) {
    && db.messages.Keys == start.messages.Keys
    && (forall id :: IsCandidate(start, before, id) ==> id in visited)
    && (forall id :: id in db.messages ==>
          db.messages[id] == Swept(start.messages[id], IsCandidate(start, before, id) && id in stale))
  }

  lemma PageShrinksRest(start: Db, db: Db, before: int, stale: set<int>, cursor: Cursor, visited: seq<int>, page: seq<int>)
    requires ScanInv(start, db, before, stale, cursor, visited) && IsPage(db, before, cursor, page) && page != []
    ensures page[|page| - 1] in db.messages
    ensures Remaining(start, before, Some(KeyOf(db, page[|page| - 1]))) < Remaining(start, before, cursor)
  {
    ScanSeesTheRest(start, db, before, stale, cursor, visited);
    PageAdvances(db, before, cursor, page);
    var last := page[|page| - 1];
    var next := Some(KeyOf(db, last));
    assert last !in Remaining(start, before, next);
    forall id | id in Remaining(start, before, next) ensures id in Remaining(start, before, cursor) {
      assert After(cursor, KeyOf(db, last)) && Before(KeyOf(db, last), KeyOf(start, id));
    }
  }

  lemma ScanIsPartial(start: Db, db: Db, before: int, stale: set<int>, cursor: Cursor, visited: seq<int>, page: seq<int>)
    requires ScanInv(start, db, before, stale, cursor, visited) && (page == [] || IsPage(db, before, cursor, page))
    ensures OnlyStaleFailed(start, db, before, stale, visited) && OnlyStaleFailed(start, db, before, stale, visited + page)
  {
    ScanSeesTheRest(start, db, before, stale, cursor, visited);
    if page == [] {
      assert visited + page == visited;
    } else {
      PageKeepsOrder(start, db, before, stale, cursor, visited, page);
      forall id | id in page ensures IsCandidate(start, before, id) {
        assert id in Remaining(db, before, cursor);
      }
    }
  }

  /** After a short page whose stale rows were failed the scan is complete. */
  lemma ShortScanIsFinished(start: Db, db: Db, before: int, stale: set<int>, cursor: Cursor, visited: seq<int>, page: seq<int>, db': Db)
    requires ScanInv(start, db, before, stale, cursor, visited) && IsPage(db, before, cursor, page) && |page| < PAGE_SIZE
    requires db'.messages.Keys == start.messages.Keys && Ordered(start, visited + page)
    requires forall id :: id in db'.messages ==> db'.messages[id] == Swept(start.messages[id], id in visited + page && id in stale)
    requires forall id :: id in visited + page ==> IsCandidate(start, before, id)
    ensures Finished(start, db', before, stale, visited + page)
    ensures page == [] ==> Finished(start, db', before, stale, visited)
  {
    ShortPageEnds(start, db, before, stale, cursor, visited, page);
    assert page == [] ==> visited + page == visited;
  }
}
