/** Recovery by paging over the event log (server/ChatServer/src/LogicSystem.cpp, DealSyncMessage;
    server/ChatServer/src/MysqlDao.cpp, GetEventsAfterSeq).

    The head, the rows and every referenced message are read by separate statements, so each of
    them may see a later state of the tables. */
module Sync {
  import opened Basics
  import opened Store
  import opened EventLog

  /** The answer of SELECT ... WHERE event_seq > after ORDER BY event_seq LIMIT limit. */
  ghost predicate QueryAnswer(db: Db, user: int, after: nat, limit: nat, rows: seq<nat>) {
    && |rows| <= limit
    && (forall i :: 0 <= i < |rows| ==> rows[i] > after && (user, rows[i]) in db.events)
    && (forall i, j :: 0 <= i < j < |rows| ==> rows[i] < rows[j])
    && (forall k :: k > after && (user, k) in db.events && k !in rows ==>
          |rows| == limit && forall i :: 0 <= i < |rows| ==> rows[i] < k)
  }

  datatype Page = Page(events: seq<(nat, Event)>, next: nat, hasMore: bool)

  datatype SyncReply = SyncPage(page: Page) | CursorInvalid | StoreFailed

  function ClampLimit(limit: int): nat {
    if limit < 1 then 1 else if limit > 200 then 200 else limit
  }

  /** The page that a dense log holds after a cursor: the next `limit` numbers, in order. */
  function PageAfter(db: Db, user: int, after: nat, limit: nat): Page
    requires user in db.users && after <= db.users[user]
    requires forall k :: after < k <= db.users[user] ==> (user, k) in db.events
  {
    var n := Min(limit, db.users[user] - after);
    Page(Slice(db, user, after, after + n), after + n, db.users[user] - after > limit)
  }

  /** The events numbered from+1..to. */
  function Slice(db: Db, user: int, from: nat, to: nat): (s: seq<(nat, Event)>)
    requires from <= to && forall k :: from < k <= to ==> (user, k) in db.events
    ensures |s| == to - from
    ensures (forall i :: 0 <= i < |s| ==> s[i] == (from + 1 + i, db.events[(user, from + 1 + i)]))
  {
    seq(to - from, i requires 0 <= i < to - from => (from + 1 + i, db.events[(user, from + 1 + i)]))
  }

  lemma {:induction false} AnswerIsConsecutive(db: Db, user: int, after: nat, limit: nat, rows: seq<nat>, i: nat)
    requires Dense(db) && user in db.users && QueryAnswer(db, user, after, limit, rows) && i < |rows|
    ensures rows[i] == after + 1 + i
  {
    if i > 0 {
      AnswerIsConsecutive(db, user, after, limit, rows, i - 1);
    }
    var k := after + 1 + i;
    assert k <= rows[i] && (user, rows[i]) in db.events;
    assert (user, k) in db.events;
    assert k in rows;
    var j :| 0 <= j < |rows| && rows[j] == k;
    assert i > 0 ==> rows[i - 1] < rows[j];
  }

  lemma AnswerLength(db: Db, user: int, after: nat, limit: nat, rows: seq<nat>)
    requires Dense(db) && user in db.users && after <= db.users[user] && QueryAnswer(db, user, after, limit, rows)
    requires forall i :: 0 <= i < |rows| ==> rows[i] == after + 1 + i
    ensures |rows| == Min(limit, db.users[user] - after)
  {
    assert |rows| > 0 ==> (user, rows[|rows| - 1]) in db.events;
    var k := after + 1 + |rows|;
    assert k !in rows;
    assert k <= db.users[user] ==> (user, k) in db.events;
  }

  /** Does the row that an event refers to resolve in this state of the tables? */
  predicate Resolves(db: Db, event: Event) {
    match event
    case MessageEvent(_, m) => m in db.messages && db.messages[m].status == Published
    case FriendEvent(_, r) => r in db.requests
  }

  /** The referenced rows can never disappear or lose their status. */
  lemma ReferenceSurvives(db: Db, db': Db, user: int, k: nat)
    requires LogInv(db) && Grows(db, db') && (user, k) in db.events
    ensures Resolves(db', db.events[(user, k)])
  {
    assert Refers(db, user, db.events[(user, k)]);
  }

  /** GetEventsAfterSeq: resolve every row; a dangling reference fails the whole call.  `later[i]` is
      the state that the i-th reference look-up sees. */
  method GetEventsAfterSeq(db: Db, later: seq<Db>, user: int, rows: seq<nat>) returns (ok: bool, events: seq<(nat, Event)>)
    requires |later| == |rows|
    requires forall i :: 0 <= i < |rows| ==> (user, rows[i]) in db.events
    ensures ok <==> forall i :: 0 <= i < |rows| ==> Resolves(later[i], db.events[(user, rows[i])])
    ensures ok ==> |events| == |rows| && forall i :: 0 <= i < |rows| ==> events[i] == (rows[i], db.events[(user, rows[i])])
  {
    events := [];
    for n := 0 to |rows|
      invariant |events| == n
      invariant forall i :: 0 <= i < n ==> events[i] == (rows[i], db.events[(user, rows[i])])
      invariant forall i :: 0 <= i < n ==> Resolves(later[i], db.events[(user, rows[i])])
    {
      var event := db.events[(user, rows[n])];
      if !Resolves(later[n], event) {
        return false, events;
      }
      events := events + [(rows[n], event)];
    }
    return true, events;
  }

  /** The rows that DealSyncMessage works on are the next numbers of the log, and none dangles. */
  lemma RowsAreNextAndResolve(db: Db, later: seq<Db>, user: int, after: nat, limit: nat, rows: seq<nat>)
    requires LogInv(db) && user in db.users && after <= db.users[user]
    requires QueryAnswer(db, user, after, limit, rows)
    requires |later| == |rows| && forall i :: 0 <= i < |rows| ==> Grows(db, later[i])
    ensures |rows| == Min(limit, db.users[user] - after)
    ensures forall i :: 0 <= i < |rows| ==> rows[i] == after + 1 + i && Resolves(later[i], db.events[(user, rows[i])])
  {
    forall i | 0 <= i < |rows| ensures rows[i] == after + 1 + i && Resolves(later[i], db.events[(user, rows[i])]) {
      AnswerIsConsecutive(db, user, after, limit, rows, i);
      ReferenceSurvives(db, later[i], user, rows[i]);
    }
    AnswerLength(db, user, after, limit, rows);
  }

  /** The tail of DealSyncMessage: cut the extra row, collect the envelopes, move the cursor. */
  method BuildPage(rows: seq<(nat, Event)>, after: nat, limit: nat) returns (page: Page)
    requires limit > 0
    ensures page.hasMore <==> |rows| > limit
    ensures page.events == if |rows| > limit then rows[..|rows| - 1] else rows
    ensures page.next == if page.events == [] then after else page.events[|page.events| - 1].0
  {
    var kept := rows;
    var hasMore := |kept| > limit;
    if hasMore {
      kept := kept[..|kept| - 1];
    }
    var next := after;
    var events := [];
    for n := 0 to |kept|
      invariant events == kept[..n]
      invariant next == if n == 0 then after else kept[n - 1].0
    {
      events := events + [kept[n]];
      next := kept[n].0;
    }
    return Page(events, next, hasMore);
  }

  /** DealSyncMessage on the head read first and the rows read next.  With the log invariants it
      never fails on a dangling reference and answers exactly the page that follows the cursor. */
  method DealSyncMessage(db0: Db, db: Db, later: seq<Db>, user: int, after: nat, limitArg: int, rows: seq<nat>,
                         headFails: bool, rowsFail: bool)
    returns (reply: SyncReply)
    requires LogInv(db) && Grows(db0, db)
    requires QueryAnswer(db, user, after, ClampLimit(limitArg) + 1, rows)
    requires |later| == |rows| && forall i :: 0 <= i < |rows| ==> Grows(db, later[i])
    ensures headFails || user !in db0.users ==> reply == StoreFailed
    ensures !headFails && user in db0.users && after > db0.users[user] ==> reply == CursorInvalid
    ensures !headFails && user in db0.users && after <= db0.users[user] ==>
              reply == if rowsFail then StoreFailed else SyncPage(PageAfter(db, user, after, ClampLimit(limitArg)))
  {
    var limit := ClampLimit(limitArg);
    if headFails || user !in db0.users {
      return StoreFailed;
    }
    var head := db0.users[user];
    if after > head {
      return CursorInvalid;
    }
    if rowsFail {
      return StoreFailed;
    }
    RowsAreNextAndResolve(db, later, user, after, limit + 1, rows);
    var ok, resolved := GetEventsAfterSeq(db, later, user, rows);
    if !ok {
      return StoreFailed;
    }
    var page := BuildPage(resolved, after, limit);
    NextPage(db, user, after, limit, rows, resolved, page);
    return SyncPage(page);
  }

  /** A page of at most `wanted` events: as many as there are, numbered on from the cursor, with the last
      number as the new cursor. */
  ghost predicate HoldsTheNext(db: Db, user: int, after: nat, wanted: nat, page: Page) {
    && user in db.users && after <= db.users[user]
    && |page.events| == Min(wanted, db.users[user] - after)
    && (forall i :: 0 <= i < |page.events| ==> page.events[i].0 == after + 1 + i && EventAt(db, user, after + 1 + i, page.events[i].1))
    && page.next == after + |page.events| && (page.hasMore <==> page.next < db.users[user])
  }

  /** A page holds what the client asked for, but at least one and at most 200 events, or all that are
      left. */
  lemma PageHoldsTheNext(db: Db, user: int, after: nat, limitArg: int)
    requires LogInv(db) && user in db.users && after <= db.users[user]
    ensures HoldsTheNext(db, user, after, if limitArg < 1 then 1 else Min(limitArg, 200), PageAfter(db, user, after, ClampLimit(limitArg)))
  {
  }

  /** Rows that are the next numbers of a dense log make the page after the cursor. */
  lemma NextPage(db: Db, user: int, after: nat, limit: nat, rows: seq<nat>, resolved: seq<(nat, Event)>, page: Page)
    requires limit > 0 && user in db.users && after <= db.users[user]
    requires forall k :: after < k <= db.users[user] ==> (user, k) in db.events
    requires |rows| == Min(limit + 1, db.users[user] - after) == |resolved|
    requires forall i :: 0 <= i < |rows| ==> rows[i] == after + 1 + i && (user, rows[i]) in db.events
    requires forall i :: 0 <= i < |rows| ==> resolved[i] == (rows[i], db.events[(user, rows[i])])
    requires page.hasMore <==> |resolved| > limit
    requires page.events == if |resolved| > limit then resolved[..|resolved| - 1] else resolved
    requires page.next == if page.events == [] then after else page.events[|page.events| - 1].0
    ensures page == PageAfter(db, user, after, limit)
  {
    assert page.events == PageAfter(db, user, after, limit).events;
  }

  // ---- The client's loop ---------------------------------------------------------------------------

  ghost predicate GrowingLogs(dbs: seq<Db>, user: int) {
    && (forall i :: 0 <= i < |dbs| ==> LogInv(dbs[i]) && user in dbs[i].users)
    && (forall i :: 0 <= i < |dbs| - 1 ==> Grows(dbs[i], dbs[i + 1]))
  }

  /** Pages fetched one after the other, each from a log that may have grown meanwhile, each asking
      for what follows the previous page, until has_more is false. */
  ghost predicate IsSync(dbs: seq<Db>, user: int, limits: seq<nat>, cursor: nat, pages: seq<Page>) {
    && |dbs| == |limits| == |pages| > 0
    && GrowingLogs(dbs, user)
    && cursor <= dbs[0].users[user]
    && limits[0] > 0
    && pages[0] == PageAfter(dbs[0], user, cursor, limits[0])
    && if |pages| == 1 then !pages[0].hasMore
       else pages[0].hasMore && IsSync(dbs[1..], user, limits[1..], pages[0].next, pages[1..])
  }

  function AllEvents(pages: seq<Page>): seq<(nat, Event)> {
    if pages == [] then [] else pages[0].events + AllEvents(pages[1..])
  }

  lemma {:induction false} LaterLogs(dbs: seq<Db>, user: int, i: nat)
    requires GrowingLogs(dbs, user) && i < |dbs|
    ensures Grows(dbs[0], dbs[i])
  {
    if i == 0 {
      GrowsReflexive(dbs[0]);
    } else {
      LaterLogs(dbs, user, i - 1);
      GrowsTransitive(dbs[0], dbs[i - 1], dbs[i]);
    }
  }

  /** Splitting a slice, and reading its front from an older log. */
  lemma SliceJoins(old_: Db, db: Db, user: int, from: nat, mid: nat, to: nat)
    requires from <= mid <= to && forall k :: from < k <= to ==> (user, k) in db.events
    requires forall k :: from < k <= mid ==> (user, k) in old_.events && old_.events[(user, k)] == db.events[(user, k)]
    ensures Slice(db, user, from, to) == Slice(old_, user, from, mid) + Slice(db, user, mid, to)
  {
  }

  /** The loop returns the events cursor+1..last, in order, with no gap and no repeat, even while
      events are appended between pages. */
  lemma {:induction false} SyncReturnsEverythingOnce(dbs: seq<Db>, user: int, limits: seq<nat>, cursor: nat, pages: seq<Page>)
    requires IsSync(dbs, user, limits, cursor, pages)
    ensures var db := dbs[|dbs| - 1];
            && cursor <= db.users[user]
            && AllEvents(pages) == Slice(db, user, cursor, db.users[user])
            && pages[|pages| - 1].next == db.users[user]
    decreases |pages|
  {
    var db := dbs[|dbs| - 1];
    var n := pages[0].next;
    LaterLogs(dbs, user, |dbs| - 1);
    if |pages| == 1 {
      assert AllEvents(pages) == pages[0].events + AllEvents([]);
    } else {
      SyncReturnsEverythingOnce(dbs[1..], user, limits[1..], n, pages[1..]);
      assert dbs[1..][|dbs| - 2] == db;
      SliceJoins(dbs[0], db, user, cursor, n, db.users[user]);
    }
  }

  /** Every page that announces more is full, so it moves the cursor. */
  lemma {:induction false} FullPagesAdvance(dbs: seq<Db>, user: int, limits: seq<nat>, cursor: nat, pages: seq<Page>, i: nat)
    requires IsSync(dbs, user, limits, cursor, pages) && i < |pages| && pages[i].hasMore
    ensures i < |limits| && |pages[i].events| == limits[i] > 0
    decreases i
  {
    if i > 0 {
      FullPagesAdvance(dbs[1..], user, limits[1..], pages[0].next, pages[1..], i - 1);
    }
  }
}
