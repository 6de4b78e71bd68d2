/** What each transaction answers, when, and what it writes, said of the tables alone
    (server/ChatServer/src/MysqlDao.cpp). */
module Outcomes {
  import opened Basics
  import opened Store
  import opened EventLog
  import opened FriendGraph

  /** The two users of a chat. */
  predicate AreMembers(db: Db, thread: int, a: int, b: int) {
    thread in db.chats && a != b && {a, b} == {db.chats[thread].0, db.chats[thread].1}
  }

  /** The message `m` goes to the user of its chat who did not send it. */
  lemma RecipientIsTheOther(db: Db, m: int)
    requires WellFormed(db) && m in db.messages
    ensures db.messages[m].thread in db.chats
    ensures AreMembers(db, db.messages[m].thread, db.messages[m].sender, Recipient(db, db.messages[m]))
  {
    assert MessageOk(db, m);
  }

  /** `db'` is `db` with one more event for `user`, under the next number. */
  ghost predicate Announces(db: Db, db': Db, user: int, event: Event) {
    && user in db.users
    && db'.users == db.users[user := db.users[user] + 1]
    && db'.events == db.events[(user, db.users[user] + 1) := event]
  }

  // ---- Sending -------------------------------------------------------------------------------------------

  /** What AddChatMsg asks of a request before it looks for the key. */
  predicate Admissible(db: Db, req: SendRequest) {
    && req.thread > 0 && req.sender > 0 && req.clientId != ""
    && req.thread in db.chats && req.sender in {db.chats[req.thread].0, db.chats[req.thread].1}
  }

  ghost predicate KeyIsFree(db: Db, req: SendRequest) {
    forall m :: m in db.messages ==> db.messages[m].sender != req.sender || db.messages[m].clientId != req.clientId
  }

  /** A text, or a picture or file with its resource. */
  predicate HasBody(req: SendRequest) {
    req.kind == TEXT || (req.kind in {PIC, FILE} && req.resource.Some?)
  }

  /** The row m carries the key and the content of the request. */
  predicate Repeats(db: Db, m: int, req: SendRequest) {
    && m in db.messages && db.messages[m].sender == req.sender && db.messages[m].clientId == req.clientId
    && db.messages[m].thread == req.thread && db.messages[m].kind == req.kind && db.messages[m].text == req.text
    && db.messages[m].resource == req.resource
  }

  /** Which answer is given when. */
  lemma SaveAnswers(db: Db, req: SendRequest, id: int)
    requires LogInv(db)
    ensures var result := SaveMessage(db, req, id).1.result;
            && (result == Stored <==> Admissible(db, req) && KeyIsFree(db, req) && HasBody(req))
            && (result == Duplicate <==> Admissible(db, req) && exists m :: Repeats(db, m, req))
            && (result == Conflict <==> Admissible(db, req) && !KeyIsFree(db, req) && !exists m :: Repeats(db, m, req))
            && (result == SaveFailed <==> !Admissible(db, req) || (KeyIsFree(db, req) && !HasBody(req)))
    ensures SaveMessage(db, req, id).1.result == SaveFailed ==> SaveMessage(db, req, id).1 == NOT_SAVED
    ensures SaveMessage(db, req, id).1.result != Stored ==> SaveMessage(db, req, id).0 == db
  {
    match MessageByKey(db, req.sender, req.clientId)
    case None =>
      assert KeyIsFree(db, req) by {
        forall m | m in db.messages ensures db.messages[m].sender != req.sender || db.messages[m].clientId != req.clientId {
          assert !HasKey(db, m, req.sender, req.clientId);
        }
      }
    case Some(m) =>
      assert SameContent(db.messages[m], req) ==> Repeats(db, m, req);
      forall n | Repeats(db, n, req) ensures n == m {
        assert SameKey(db.messages[n], db.messages[m]);
      }
  }

  /** What a stored message looks like: the fields of the request, no text for a resource and no
      resource for a text; a text is published and announced to the other member at once, a resource
      waits. */
  lemma StoredRowIsTheRequest(db: Db, req: SendRequest, id: int)
    requires LogInv(db) && SaveMessage(db, req, id).1.result == Stored
    ensures var (db', reply) := SaveMessage(db, req, id);
            && reply.message == id && id in db'.messages
            && var row := db'.messages[id];
            && row.thread == req.thread && row.sender == req.sender && row.clientId == req.clientId
            && row.kind == req.kind && row.createdAt == req.createdAt && row.status == reply.status
            && (if req.kind == TEXT then row.text == req.text && row.resource == None && row.status == Published
                else row.text == "" && row.resource == req.resource && row.status == Pending)
            && db' == db.(messages := db.messages[id := row], users := db'.users, events := db'.events)
    ensures var (db', reply) := SaveMessage(db, req, id);
            if req.kind == TEXT then
              exists other :: AreMembers(db, req.thread, req.sender, other) && Announces(db, db', other, MessageEvent(TEXT, id))
                              && reply.eventSeq == db.users[other] + 1
            else db'.users == db.users && db'.events == db.events && reply.eventSeq == 0
  {
    if req.kind == TEXT {
      var other := OtherMember(db.chats[req.thread], req.sender);
      assert AreMembers(db, req.thread, req.sender, other);
      assert Announces(db, SaveMessage(db, req, id).0, other, MessageEvent(TEXT, id));
    }
  }

  /** The fields that the row does not keep are empty in the request. */
  predicate IsNormal(req: SendRequest) {
    if req.kind == TEXT then req.resource == None else req.text == ""
  }

  /** Sending a stored request again, at any later time and however the message has fared, is answered
      Duplicate with the same id if and only if the request has no field that the row drops; otherwise
      it conflicts with itself. */
  lemma ResendIsDuplicateIff(dbs: seq<Db>, ops: seq<Op>, i: nat, j: nat, newId: int)
    requires IsHistory(dbs, ops) && i < j < |dbs| && ops[i].Send? && dbs[i + 1] == Commit(dbs[i], ops[i])
    requires SaveMessage(dbs[i], ops[i].req, ops[i].newMessage).1.result == Stored
    ensures var reply := SaveMessage(dbs[j], ops[i].req, newId).1;
            && (reply.result == Duplicate && reply.message == ops[i].newMessage <==> IsNormal(ops[i].req))
            && (reply.result == Conflict <==> !IsNormal(ops[i].req))
  {
    var req, id := ops[i].req, ops[i].newMessage;
    HistoryKeepsLog(dbs, ops, i);
    HistoryKeepsLog(dbs, ops, j);
    HistoryGrows(dbs, ops, i + 1, j);
    SaveAnswers(dbs[i], req, id);
    StoredRowIsTheRequest(dbs[i], req, id);
    ResendAnswers(dbs[j], req, id, newId);
  }

  lemma ResendAnswers(db: Db, req: SendRequest, id: int, newId: int)
    requires LogInv(db) && Admissible(db, req) && HasBody(req) && id in db.messages
    requires db.messages[id].sender == req.sender && db.messages[id].clientId == req.clientId
    requires db.messages[id].thread == req.thread && db.messages[id].kind == req.kind
    requires db.messages[id].text == (if req.kind == TEXT then req.text else "")
    requires db.messages[id].resource == (if req.kind == TEXT then None else req.resource)
    ensures var reply := SaveMessage(db, req, newId).1;
            && (reply.result == Duplicate && reply.message == id <==> IsNormal(req))
            && (reply.result == Conflict <==> !IsNormal(req))
  {
    SaveAnswers(db, req, newId);
    assert Repeats(db, id, req) <==> IsNormal(req);
    forall m | m in db.messages && db.messages[m].sender == req.sender && db.messages[m].clientId == req.clientId ensures m == id {
      assert SameKey(db.messages[m], db.messages[id]);
    }
  }

  // ---- Publishing ----------------------------------------------------------------------------------------

  /** Which answer the publication of a resource gets, and what the first one writes: the row's status
      and one event for the other member. */
  lemma PublishAnswers(db: Db, m: int, sender: int)
    requires LogInv(db)
    ensures var (db', result, seqNo) := Publish(db, m, sender);
            && var found := m in db.messages && db.messages[m].sender == sender && db.messages[m].kind in {PIC, FILE};
            && (result == NotFound <==> !found)
            && (result == NowPublished <==> found && db.messages[m].status == Pending)
            && (result == AlreadyPublished <==> found && db.messages[m].status == Published)
            && (result == NotPending <==> found && db.messages[m].status == Failed)
            && (result != NowPublished ==> db' == db)
    ensures var (db', result, seqNo) := Publish(db, m, sender);
            result == NowPublished ==>
              && db' == db.(messages := db.messages[m := db.messages[m].(status := Published)], users := db'.users, events := db'.events)
              && exists other :: AreMembers(db, db.messages[m].thread, sender, other)
                                 && Announces(db, db', other, MessageEvent(db.messages[m].kind, m)) && seqNo == db.users[other] + 1
    ensures var (db', result, seqNo) := Publish(db, m, sender);
            result == AlreadyPublished ==> seqNo > 0 && EventAt(db, Recipient(db, db.messages[m]), seqNo, MessageEvent(db.messages[m].kind, m))
  {
    var (db', result, seqNo) := Publish(db, m, sender);
    if m in db.messages && db.messages[m].sender == sender && db.messages[m].kind in {PIC, FILE} {
      var row := db.messages[m];
      assert MessageOk(db, m);
      var other, event := Recipient(db, row), MessageEvent(row.kind, m);
      assert AreMembers(db, row.thread, sender, other);
      if row.status == Published {
        assert Logged(db, other, event);
        var k :| EventAt(db, other, k, event);
        assert k > 0;
      }
      if row.status == Pending {
        assert Announces(db, db', other, event);
      }
    } else if m in db.messages {
      assert MessageOk(db, m);
    }
  }

  // ---- Chats ---------------------------------------------------------------------------------------------

  /** Two different registered users share exactly one chat afterwards: the one they had, or a new one;
      nothing else is written, and nothing at all for anybody else. */
  lemma CreatedChat(db: Db, a: int, b: int, newThread: int)
    requires LogInv(db) && GraphInv(db) && newThread !in db.chats
    ensures var db', ok := Commit(db, CreateChat(a, b, newThread)), a != b && a in db.users && b in db.users;
            && db' == db.(chats := db'.chats)
            && (HaveChat(db', a, b) <==> ok || HaveChat(db, a, b))
            && (forall s, t :: AreMembers(db', s, a, b) && AreMembers(db', t, a, b) ==> s == t)
            && db'.chats == if ok && !HaveChat(db, a, b) then db.chats[newThread := Friends(a, b)] else db.chats
  {
    if a != b && a in db.users && b in db.users {
      ChatIsEnsured(db, a, b, newThread);
      ChatKeepsGraph(db, Pair(a, b), newThread);
      ChatIsUnique(EnsureChat(db, Pair(a, b), newThread).0, a, b);
    } else {
      ChatIsUnique(db, a, b);
    }
  }

  lemma ChatIsUnique(db: Db, a: int, b: int)
    requires OneChatPerPair(db) && forall t :: t in db.chats ==> db.chats[t].0 < db.chats[t].1
    ensures forall s, t :: AreMembers(db, s, a, b) && AreMembers(db, t, a, b) ==> s == t
  {
    MembersAre(db, a, b);
  }

  ghost predicate HaveChat(db: Db, a: int, b: int) {
    exists t :: AreMembers(db, t, a, b)
  }

  lemma ChatIsEnsured(db: Db, a: int, b: int, newThread: int)
    requires WellFormed(db) && newThread !in db.chats && a != b && a in db.users && b in db.users
    ensures var db' := EnsureChat(db, Pair(a, b), newThread).0;
            && (forall t :: t in db'.chats ==> db'.chats[t].0 < db'.chats[t].1)
            && HaveChat(db', a, b) && db'.chats == if HaveChat(db, a, b) then db.chats else db.chats[newThread := Friends(a, b)]
  {
    MembersAre(db, a, b);
    var (db', t) := EnsureChat(db, Pair(a, b), newThread);
    assert AreMembers(db', t, a, b);
  }

  /** The two users of a chat are its ordered pair. */
  lemma MembersAre(db: Db, a: int, b: int)
    requires forall t :: t in db.chats ==> db.chats[t].0 < db.chats[t].1
    ensures forall t :: AreMembers(db, t, a, b) <==> a != b && IsChatOf(db, t, Pair(a, b))
  {
    forall t ensures AreMembers(db, t, a, b) <==> a != b && IsChatOf(db, t, Pair(a, b)) {
      if AreMembers(db, t, a, b) {
        assert db.chats[t].0 in {a, b} && db.chats[t].1 in {a, b};
      }
    }
  }

  // ---- Friends -------------------------------------------------------------------------------------------

  /** The ordered pair under which two users are friends. */
  function Friends(a: int, b: int): (int, int) {
    if a < b then (a, b) else (b, a)
  }

  /** Two different registered users who are not friends yet. */
  predicate MayAsk(db: Db, a: int, b: int, clientId: string) {
    && clientId != "" && a in db.users && b in db.users && a != b && Friends(a, b) !in db.friendships
  }

  predicate UsesKey(db: Db, r: int, a: int, clientId: string) {
    r in db.requests && db.requests[r].requester == a && db.requests[r].clientId == clientId
  }

  predicate SameRequest(db: Db, r: int, a: int, b: int, note: string, clientId: string) {
    UsesKey(db, r, a, clientId) && db.requests[r].target == b && db.requests[r].note == note
  }

  predicate Waits(db: Db, r: int, a: int, b: int) {
    r in db.requests && db.requests[r].requester == a && db.requests[r].target == b && db.requests[r].status == Waiting
  }

  /** Which answer a friend request gets, and what a stored one writes: one waiting row and one event for
      the target. */
  lemma ApplyAnswers(db: Db, a: int, b: int, note: string, clientId: string, id: int)
    requires LogInv(db) && GraphInv(db)
    ensures var (db', result) := ApplyFriend(db, a, b, note, clientId, id);
            && var free := !exists r :: UsesKey(db, r, a, clientId);
            && (result == FFailed <==> a <= 0 || b <= 0 || a == b || clientId == "")
            && (result == FNotFound <==> a > 0 && b > 0 && a != b && clientId != "" && !(a in db.users && b in db.users))
            && (result == AlreadyFriends <==> clientId != "" && a in db.users && b in db.users && a != b && Friends(a, b) in db.friendships)
            && (result == FDuplicate <==>
                  && MayAsk(db, a, b, clientId)
                  && ((exists r :: SameRequest(db, r, a, b, note, clientId)) || (free && exists r :: Waits(db, r, a, b))))
            && (result == FConflict <==> MayAsk(db, a, b, clientId) && !free && !exists r :: SameRequest(db, r, a, b, note, clientId))
            && (result == FStored <==> MayAsk(db, a, b, clientId) && free && !exists r :: Waits(db, r, a, b))
            && (result != FStored ==> db' == db)
            && (result == FStored ==>
                  && db' == db.(requests := db.requests[id := FriendRequest(a, b, clientId, note, Waiting, 0)], users := db'.users, events := db'.events)
                  && Announces(db, db', b, FriendEvent(FriendApply, id)))
  {
    match RequestByKey(db, a, clientId)
    case None =>
      forall r ensures !UsesKey(db, r, a, clientId) { assert !HasRequestKey(db, r, a, clientId); }
      assert (exists r :: IsWaiting(db, r, a, b)) <==> exists r :: Waits(db, r, a, b) by {
        assert forall r :: IsWaiting(db, r, a, b) <==> Waits(db, r, a, b);
      }
    case Some(r) =>
      assert UsesKey(db, r, a, clientId);
      forall x | UsesKey(db, x, a, clientId) ensures x == r {
        assert SameRequestKey(db.requests[x], db.requests[r]);
      }
      assert SameRequest(db, r, a, b, note, clientId) <==> (db.requests[r].target == b && db.requests[r].note == note);
  }

  /** Which answer a handler gets. */
  lemma HandleAnswers(db: Db, handler: int, request: int, accept: bool, newThread: int)
    requires LogInv(db) && newThread !in db.chats
    ensures var (db', result) := HandleFriend(db, handler, request, accept, newThread);
            && (result == FNotFound <==> request !in db.requests)
            && (result == Forbidden <==> request in db.requests && db.requests[request].target != handler)
            && (result == FDuplicate <==> request in db.requests && db.requests[request].target == handler
                                          && db.requests[request].status == (if accept then Accepted else Rejected))
            && (result == AlreadyHandled <==> request in db.requests && db.requests[request].target == handler
                                              && db.requests[request].status == (if accept then Rejected else Accepted))
            && (result == FStored <==> request in db.requests && db.requests[request].target == handler && db.requests[request].status == Waiting)
            && (result != FStored ==> db' == db)
  {
  }

  /** The requests that an answer settles: a no settles one, a yes every waiting request between the two
      users, in whichever direction. */
  predicate Answered(db: Db, q: int, request: int, accept: bool)
    requires q in db.requests && request in db.requests
  {
    || q == request
    || (accept && db.requests[q].status == Waiting
        && {db.requests[q].requester, db.requests[q].target} == {db.requests[request].requester, db.requests[request].target})
  }

  lemma SameUsers(a: int, b: int, c: int, d: int)
    requires a != b && c != d
    ensures Pair(a, b) == Pair(c, d) <==> {a, b} == {c, d}
  {
    if {a, b} == {c, d} {
      assert a in {c, d} && b in {c, d};
    }
  }

  /** What an answer does to the requests: the ones it settles get its status and, for yes, the thread of
      the chat; no other request changes. */
  lemma AnswerSettlesRequests(db: Db, handler: int, request: int, accept: bool, newThread: int)
    requires LogInv(db) && newThread !in db.chats && HandleFriend(db, handler, request, accept, newThread).1 == FStored
    ensures var db', r := HandleFriend(db, handler, request, accept, newThread).0, db.requests[request];
            && r.target == handler && db'.requests.Keys == db.requests.Keys && db'.messages == db.messages
            && db'.requests[request].status == (if accept then Accepted else Rejected)
            && (forall q :: q in db.requests && Answered(db, q, request, accept) ==>
                  && db'.requests[q] == db.requests[q].(status := db'.requests[request].status, thread := db'.requests[q].thread)
                  && (if accept then IsChatOf(db', db'.requests[q].thread, Friends(r.requester, handler))
                      else db'.requests[q].thread == db.requests[q].thread))
            && (forall q :: q in db.requests && !Answered(db, q, request, accept) ==> db'.requests[q] == db.requests[q])
  {
    AcceptedPair(db, request);
    if accept {
      var (db1, t) := EnsureChat(db, Pair(db.requests[request].requester, handler), newThread);
      assert IsChatOf(db1, t, Friends(db.requests[request].requester, handler));
    }
  }

  /** A yes looks for requests by ordered pair, which finds both directions. */
  lemma AcceptedPair(db: Db, request: int)
    requires WellFormed(db) && request in db.requests
    ensures forall q :: q in db.requests && db.requests[q].status == Waiting && q != request ==>
              (PairOf(db.requests[q]) == PairOf(db.requests[request]) <==> Answered(db, q, request, true))
  {
    forall q | q in db.requests && db.requests[q].status == Waiting && q != request
      ensures PairOf(db.requests[q]) == PairOf(db.requests[request]) <==> Answered(db, q, request, true)
    {
      SameUsers(db.requests[q].requester, db.requests[q].target, db.requests[request].requester, db.requests[request].target);
    }
  }

  /** What it does to the two users: they are friends if and only if the answer is yes, then with a chat,
      and the requester is told which it is. */
  lemma AnswerMakesFriendsIff(db: Db, handler: int, request: int, accept: bool, newThread: int)
    requires LogInv(db) && GraphInv(db) && newThread !in db.chats
    requires HandleFriend(db, handler, request, accept, newThread).1 == FStored
    ensures var db', r := HandleFriend(db, handler, request, accept, newThread).0, db.requests[request];
            && var pair := Friends(r.requester, handler);
            && (pair in db'.friendships <==> accept) && db'.friendships - {pair} == db.friendships
            && Announces(db, db', r.requester, FriendEvent(if accept then FriendAccept else FriendReject, request))
            && (accept ==> exists t :: IsChatOf(db', t, pair))
            && (db'.chats == db.chats || (accept && db'.chats == db.chats[newThread := pair] && forall t :: !IsChatOf(db, t, pair)))
  {
    var r := db.requests[request];
    var pair := Friends(r.requester, handler);
    assert PairOf(r) == pair && pair !in db.friendships;
    if accept {
      var (db1, t) := EnsureChat(db, pair, newThread);
      assert IsChatOf(db1, t, pair);
      assert IsChatOf(HandleFriend(db, handler, request, accept, newThread).0, t, pair);
    }
  }
}
