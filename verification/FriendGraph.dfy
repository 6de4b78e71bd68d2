/** The friend graph over every history of both servers
    (server/ChatServer/src/MysqlDao.cpp, AddFriendApply and HandleFriendApply). */
module FriendGraph {
  import opened Basics
  import opened Store
  import opened EventLog

  ghost predicate HasChat(db: Db, pair: (int, int)) {
    exists t :: IsChatOf(db, t, pair)
  }

  /** A friendship is an ordered pair that has a private chat. */
  ghost predicate FriendsHaveChat(db: Db) {
    forall p :: p in db.friendships ==> p.0 < p.1 && HasChat(db, p)
  }

  function PairOf(r: FriendRequest): (int, int) {
    Pair(r.requester, r.target)
  }

  /** An accepted request made its two users friends in the chat it names; friends have no request
      waiting in either direction. */
  ghost predicate RequestsMatchGraph(db: Db) {
    forall r :: r in db.requests ==>
      && (db.requests[r].status == Accepted ==>
            PairOf(db.requests[r]) in db.friendships && IsChatOf(db, db.requests[r].thread, PairOf(db.requests[r])))
      && (PairOf(db.requests[r]) in db.friendships ==> db.requests[r].status != Waiting)
  }

  ghost predicate OneWaiting(db: Db) {
    forall a, b :: a in db.requests && b in db.requests && BothWaiting(db.requests[a], db.requests[b]) ==> a == b
  }

  predicate BothWaiting(a: FriendRequest, b: FriendRequest) {
    a.status == Waiting && b.status == Waiting && a.requester == b.requester && a.target == b.target
  }

  ghost predicate OneChatPerPair(db: Db) {
    forall s, t :: s in db.chats && t in db.chats && db.chats[s] == db.chats[t] ==> s == t
  }

  /** uk_friend_requests_client. */
  ghost predicate RequestKeysUnique(db: Db) {
    forall a, b :: a in db.requests && b in db.requests && SameRequestKey(db.requests[a], db.requests[b]) ==> a == b
  }

  predicate SameRequestKey(a: FriendRequest, b: FriendRequest) {
    a.requester == b.requester && a.clientId == b.clientId
  }

  ghost predicate GraphInv(db: Db) {
    FriendsHaveChat(db) && RequestsMatchGraph(db) && OneWaiting(db) && OneChatPerPair(db) && RequestKeysUnique(db)
  }

  /** Tables that agree on chats, requests and friendships. */
  lemma SameGraph(db: Db, db': Db)
    requires GraphInv(db) && db'.chats == db.chats && db'.requests == db.requests && db'.friendships == db.friendships
    ensures GraphInv(db')
  {
    forall p | p in db'.friendships ensures HasChat(db', p) {
      assert HasChat(db, p);
      var t :| IsChatOf(db, t, p);
      assert IsChatOf(db', t, p);
    }
  }

  lemma ChatKeepsGraph(db: Db, pair: (int, int), newThread: int)
    requires GraphInv(db) && newThread !in db.chats
    ensures GraphInv(EnsureChat(db, pair, newThread).0)
  {
    var (db', t) := EnsureChat(db, pair, newThread);
    if ChatOf(db, pair).None? {
      assert forall s :: s in db.chats ==> !IsChatOf(db, s, pair);
    }
    forall p | p in db'.friendships ensures HasChat(db', p) {
      assert HasChat(db, p);
      var s :| IsChatOf(db, s, p);
      assert IsChatOf(db', s, p);
    }
  }

  lemma ApplyKeepsGraph(db: Db, a: int, b: int, note: string, clientId: string, id: int)
    requires GraphInv(db) && id !in db.requests
    ensures GraphInv(ApplyFriend(db, a, b, note, clientId, id).0)
  {
    var (db', result) := ApplyFriend(db, a, b, note, clientId, id);
    if result == FStored {
      forall p | p in db'.friendships ensures HasChat(db', p) {
        assert HasChat(db, p);
        var t :| IsChatOf(db, t, p);
        assert IsChatOf(db', t, p);
      }
      forall r | r in db.requests ensures !IsWaiting(db, r, a, b) && !HasRequestKey(db, r, a, clientId) {}
    }
  }

  lemma AcceptKeepsGraph(db: Db, pair: (int, int), newThread: int)
    requires GraphInv(db) && newThread !in db.chats && pair.0 < pair.1
    ensures GraphInv(AcceptBoth(db, pair, newThread))
  {
    var (db1, thread) := EnsureChat(db, pair, newThread);
    ChatKeepsGraph(db, pair, newThread);
    var db' := AcceptBoth(db, pair, newThread);
    assert IsChatOf(db', thread, pair);
    forall p | p in db'.friendships ensures HasChat(db', p) {
      if p != pair {
        assert HasChat(db1, p);
        var t :| IsChatOf(db1, t, p);
        assert IsChatOf(db', t, p);
      }
    }
    forall r | r in db'.requests ensures db1.requests[r].status == Accepted ==> IsChatOf(db', db1.requests[r].thread, PairOf(db1.requests[r])) {
      assert r in db1.requests;
    }
    assert OneWaiting(db') by {
      forall x, y | x in db'.requests && y in db'.requests && BothWaiting(db'.requests[x], db'.requests[y]) ensures x == y {
        assert BothWaiting(db1.requests[x], db1.requests[y]);
      }
    }
    assert RequestKeysUnique(db') by {
      forall x, y | x in db'.requests && y in db'.requests && SameRequestKey(db'.requests[x], db'.requests[y]) ensures x == y {
        assert SameRequestKey(db1.requests[x], db1.requests[y]);
      }
    }
  }

  lemma RejectKeepsGraph(db: Db, request: int)
    requires GraphInv(db) && request in db.requests && db.requests[request].status == Waiting
    ensures GraphInv(db.(requests := db.requests[request := db.requests[request].(status := Rejected)]))
  {
    var db' := db.(requests := db.requests[request := db.requests[request].(status := Rejected)]);
    forall p | p in db'.friendships ensures HasChat(db', p) {
      assert HasChat(db, p);
      var t :| IsChatOf(db, t, p);
      assert IsChatOf(db', t, p);
    }
    forall x, y | x in db'.requests && y in db'.requests && BothWaiting(db'.requests[x], db'.requests[y]) ensures x == y {
      assert BothWaiting(db.requests[x], db.requests[y]);
    }
    forall x, y | x in db'.requests && y in db'.requests && SameRequestKey(db'.requests[x], db'.requests[y]) ensures x == y {
      assert SameRequestKey(db.requests[x], db.requests[y]);
    }
  }

  lemma AnswerKeepsGraph(db: Db, handler: int, request: int, accept: bool, newThread: int)
    requires LogInv(db) && GraphInv(db) && newThread !in db.chats
    ensures GraphInv(HandleFriend(db, handler, request, accept, newThread).0)
  {
    var (db', result) := HandleFriend(db, handler, request, accept, newThread);
    if result == FStored {
      var r := db.requests[request];
      if accept {
        AcceptKeepsGraph(db, PairOf(r), newThread);
        SameGraph(AcceptBoth(db, PairOf(r), newThread), db');
      } else {
        RejectKeepsGraph(db, request);
        SameGraph(db.(requests := db.requests[request := r.(status := Rejected)]), db');
      }
    }
  }

  lemma TransactionKeepsGraph(db: Db, op: Op, db': Db)
    requires LogInv(db) && GraphInv(db) && Transaction(db, op, db')
    ensures GraphInv(db')
  {
    if db' != db {
      match op
      case Register(_) => SameGraph(db, db');
      case CreateChat(a, b, t) =>
        if !(a <= 0 || b <= 0 || a == b || a !in db.users || b !in db.users) {
          ChatKeepsGraph(db, Pair(a, b), t);
        }
      case Send(_, _) => SameGraph(db, db');
      case PublishResource(_, _) => SameGraph(db, db');
      case ExpireResources(_) => SameGraph(db, db');
      case Befriend(a, b, note, cid, id) => ApplyKeepsGraph(db, a, b, note, cid, id);
      case Answer(h, r, accept, t) => AnswerKeepsGraph(db, h, r, accept, t);
    }
  }

  /** After any history of both servers the friend graph is consistent. */
  lemma {:induction false} HistoryKeepsGraph(dbs: seq<Db>, ops: seq<Op>, i: nat)
    requires IsHistory(dbs, ops) && i < |dbs|
    ensures GraphInv(dbs[i])
  {
    if i > 0 {
      HistoryKeepsGraph(dbs, ops, i - 1);
      HistoryKeepsLog(dbs, ops, i - 1);
      TransactionKeepsGraph(dbs[i - 1], ops[i - 1], dbs[i]);
    }
  }

  /** A request is announced to its target exactly once, and answered to its requester at most
      once; a rejection is always answered, an acceptance only for the request that was acted on. */
  lemma FriendNewsIsUnique(dbs: seq<Db>, ops: seq<Op>, i: nat, r: int)
    requires IsHistory(dbs, ops) && i < |dbs| && r in dbs[i].requests
    ensures var db, row := dbs[i], dbs[i].requests[r];
            && (exists k :: EventAt(db, row.target, k, FriendEvent(FriendApply, r)))
            && (forall u, k :: EventAt(db, u, k, FriendEvent(FriendApply, r)) ==> u == row.target)
            && (forall u, k, news :: EventAt(db, u, k, FriendEvent(news, r)) && news != FriendApply ==>
                  u == row.requester && row.status == if news == FriendAccept then Accepted else Rejected)
            && (row.status == Rejected ==> exists k :: EventAt(db, row.requester, k, FriendEvent(FriendReject, r)))
            && (forall u, j, k, x, y :: EventAt(db, u, j, FriendEvent(x, r)) && EventAt(db, u, k, FriendEvent(y, r)) && x != FriendApply && y != FriendApply ==> x == y && j == k)
  {
    var db := dbs[i];
    HistoryKeepsLog(dbs, ops, i);
    forall u, k, news | EventAt(db, u, k, FriendEvent(news, r)) ensures Refers(db, u, FriendEvent(news, r)) {
      assert Refers(db, u, db.events[(u, k)]);
    }
    assert Logged(db, db.requests[r].target, FriendEvent(FriendApply, r));
    assert db.requests[r].status == Rejected ==> Logged(db, db.requests[r].requester, FriendEvent(FriendReject, r));
  }
}
