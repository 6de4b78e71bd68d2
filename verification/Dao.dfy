/** Both MysqlDao.cpp files as an object over the tables: each method issues its statements in the
    order of the source, rolls back by restoring the tables it started from, and is proved to
    commit exactly the transaction function of Store. */
module Dao {
  import opened Basics
  import opened Store
  import EventLog
  import FriendGraph

  /** How one attempt of a transaction ends.  `Throws`: the statement with this index, or the closing
      commit or rollback if the transaction has fewer, raises an SQLException, with or without the
      deadlock code; the statements before it have run.  `CommitLost`: the commit took effect but
      its call threw. */
  datatype Fault = Clean | Throws(statement: nat, deadlock: bool) | CommitLost

  predicate ThrowsAt(fault: Fault, statement: nat) {
    fault.Throws? && fault.statement == statement
  }

  predicate IsDeadlock(fault: Fault) {
    fault.Throws? && fault.deadlock
  }

  /** kPublishDeadlockMaxRetries counts attempts: two retries after the first one. */
  const PUBLISH_ATTEMPTS: nat := 3
  const PUBLISH_RETRIES: nat := 2

  datatype PublishReply = PublishReply(result: PublishResult, eventSeq: nat) | Transient

  const NO_SUCH_ROW := PublishReply(NotFound, 0)

  /** The invariants of both halves of the tables.  The quantifier keeps them folded until a proof
      names them. */
  ghost predicate Consistent(db: Db) {
    forall d :: d == db ==> EventLog.LogInv(d) && FriendGraph.GraphInv(d)
  }

  class Database {
    var users: map<int, nat>
    var chats: map<int, (int, int)>
    var messages: map<int, Message>
    var requests: map<int, FriendRequest>
    var friendships: set<(int, int)>
    var events: map<(int, nat), Event>

    constructor ()
      ensures View() == EmptyDb()
    {
      users, chats, messages, requests, friendships, events := map[], map[], map[], map[], {}, map[];
    }

    function View(): Db
      reads this
    {
      Db(users, chats, messages, requests, friendships, events)
    }

    ghost predicate Valid()
      reads this
    {
      Consistent(View())
    }

    method Rollback(saved: Db)
      modifies this
      ensures View() == saved
    {
      users, chats, messages := saved.users, saved.chats, saved.messages;
      requests, friendships, events := saved.requests, saved.friendships, saved.events;
    }

    method AllocateEventSeq(user: int) returns (ok: bool, seqNo: nat)
      modifies this`users
      ensures ok == (user in old(users))
      ensures ok ==> seqNo == old(users)[user] + 1 && users == old(users)[user := seqNo]
      ensures !ok ==> users == old(users)
    {
      if user !in users {
        return false, 0;
      }
      seqNo := users[user] + 1;
      users := users[user := seqNo];
      ok := true;
    }

    method InsertEvent(user: int, seqNo: nat, event: Event)
      modifies this`events
      ensures events == old(events)[(user, seqNo) := event]
    {
      events := events[(user, seqNo) := event];
    }

    /** SELECT event_seq ... WHERE recipient_user_id=? AND event_type=? AND message_id=?; 0 when there
        is no such row. */
    method FindEvent(user: int, event: Event) returns (seqNo: nat)
      requires Valid()
      ensures seqNo == EventSeqOf(View(), user, event)
    {
      assert EventLog.LogInv(View());
      if key :| key in events && key.0 == user && events[key] == event {
        seqNo := key.1;
        assert EventAt(View(), user, seqNo, event);
        assert seqNo > 0;
      } else {
        seqNo := 0;
        assert forall k: nat :: EventAt(View(), user, k, event) ==> (user, k) in events;
      }
    }

    // ---- ChatServer -----------------------------------------------------------------------------------

    /** Answers None when the transaction threw; the catch block has rolled it back. */
    method AddChatMsgTransaction(req: SendRequest, newId: int, fault: Fault) returns (reply: Option<SaveReply>)
      requires Valid() && newId > 0 && newId !in messages
      requires req.thread > 0 && req.sender > 0 && req.clientId != ""
      modifies this
      ensures reply == if fault == Clean then Some(SaveMessage(old(View()), req, newId).1) else None
      ensures View() == if fault.Throws? then old(View()) else SaveMessage(old(View()), req, newId).0
    {
      var saved := View();
      var answer := SaveStatements(req, newId, fault);
      if answer.None? || fault.Throws? {
        Rollback(saved);
        return None;
      }
      return if fault == Clean then answer else None;
    }

    /** The statements, up to the one that throws; then the tables are left half changed. */
    method SaveStatements(req: SendRequest, newId: int, fault: Fault) returns (answer: Option<SaveReply>)
      requires Valid() && newId !in messages
      requires req.thread > 0 && req.sender > 0 && req.clientId != ""
      modifies this
      ensures answer.None? ==> fault.Throws?
      ensures answer.Some? ==> (View(), answer.value) == SaveMessage(old(View()), req, newId)
    {
      if ThrowsAt(fault, 0) {
        return None;
      }
      if req.thread !in chats || (req.sender != chats[req.thread].0 && req.sender != chats[req.thread].1) {
        return Some(NOT_SAVED);
      }
      if ThrowsAt(fault, 1) {
        return None;
      }
      var recipient := OtherMember(chats[req.thread], req.sender);
      if id :| id in messages && messages[id].sender == req.sender && messages[id].clientId == req.clientId {
        assert EventLog.LogInv(View());
        KeyIsUnique(View(), id, req);
        answer := RepeatMessage(req, id, recipient, fault);
      } else {
        NoKey(View(), req);
        answer := InsertMessage(req, newId, recipient, fault);
      }
    }

    /** The key is taken: the stored row is compared and described. */
    method RepeatMessage(req: SendRequest, id: int, recipient: int, fault: Fault) returns (answer: Option<SaveReply>)
      requires Valid() && IsMember(View(), req.thread, req.sender)
      requires recipient == OtherMember(chats[req.thread], req.sender)
      requires req.thread > 0 && req.sender > 0 && req.clientId != ""
      requires MessageByKey(View(), req.sender, req.clientId) == Some(id)
      ensures answer.None? ==> fault.Throws?
      ensures answer.Some? ==> forall newId :: (View(), answer.value) == SaveMessage(View(), req, newId)
    {
      var stored := messages[id];
      if !SameContent(stored, req) {
        return Some(NOT_SAVED.(result := Conflict));
      }
      if stored.status != Published {
        return Some(SaveReply(Duplicate, id, stored.status, 0));
      }
      if ThrowsAt(fault, 2) {
        return None;
      }
      var seqNo := FindEvent(recipient, MessageEvent(stored.kind, id));
      return Some(SaveReply(Duplicate, id, stored.status, seqNo));
    }

    /** The INSERT half of the transaction, for a key that is not taken. */
    method InsertMessage(req: SendRequest, newId: int, recipient: int, fault: Fault) returns (answer: Option<SaveReply>)
      requires newId !in messages && IsMember(View(), req.thread, req.sender)
      requires recipient == OtherMember(chats[req.thread], req.sender)
      requires req.thread > 0 && req.sender > 0 && req.clientId != ""
      requires MessageByKey(View(), req.sender, req.clientId) == None
      modifies this
      ensures answer.None? ==> fault.Throws?
      ensures answer.Some? ==> (View(), answer.value) == SaveMessage(old(View()), req, newId)
    {
      var saved := View();
      if (IsResourceKind(req.kind) && req.resource.None?) || (!IsResourceKind(req.kind) && req.kind != TEXT) {
        return Some(NOT_SAVED);
      }
      if ThrowsAt(fault, 2) {
        return None;
      }
      var status := if IsResourceKind(req.kind) then Pending else Published;
      messages := messages[newId := NewMessage(req, status)];
      if ThrowsAt(fault, 3) {
        return None;
      }
      if IsResourceKind(req.kind) {
        return Some(SaveReply(Stored, newId, Pending, 0));
      }
      var ok, seqNo := AllocateEventSeq(recipient);
      if !ok {
        Rollback(saved);
        return Some(NOT_SAVED);
      }
      if ThrowsAt(fault, 4) {
        return None;
      }
      InsertEvent(recipient, seqNo, MessageEvent(req.kind, newId));
      return Some(SaveReply(Stored, newId, Published, seqNo));
    }

    /** AddChatMsg: a deadlock is retried at most `retries` times, anything else is reported as a
        failure.  `faults[k]` is how attempt k ends; attempts beyond the list are clean. */
    method AddChatMsg(req: SendRequest, newId: int, retries: nat, faults: seq<Fault>) returns (reply: SaveReply)
      requires Valid() && newId > 0 && newId !in messages
      modifies this
      ensures Valid()
      ensures View() == old(View()) || View() == SaveMessage(old(View()), req, newId).0
      ensures reply.result != SaveFailed ==> (View(), reply) == SaveMessage(old(View()), req, newId)
      ensures forall k :: Survives(faults, retries, k) ==> (View(), reply) == SaveMessage(old(View()), req, newId)
    {
      ghost var db := View();
      TransactionKeepsValid(db, Send(req, newId));
      if req.thread <= 0 || req.sender <= 0 || req.clientId == "" {
        return NOT_SAVED;
      }
      var attempt := 0;
      while true
        invariant attempt <= retries && View() == db
        invariant forall i :: 0 <= i < attempt ==> i < |faults| && IsDeadlock(faults[i])
        decreases retries - attempt
      {
        var fault := if attempt < |faults| then faults[attempt] else Clean;
        var outcome := AddChatMsgTransaction(req, newId, fault);
        if outcome.Some? {
          return outcome.value;
        }
        if !IsDeadlock(fault) || attempt >= retries {
          return NOT_SAVED;
        }
        attempt := attempt + 1;
      }
    }

    method AddFriendApply(requester: int, target: int, note: string, clientId: string, newId: int, fault: Fault)
      returns (result: FriendResult)
      requires Valid() && newId > 0 && newId !in requests
      modifies this
      ensures Valid()
      ensures View() == if fault.Throws? then old(View()) else ApplyFriend(old(View()), requester, target, note, clientId, newId).0
      ensures result == if fault == Clean then ApplyFriend(old(View()), requester, target, note, clientId, newId).1 else FFailed
    {
      var saved := View();
      TransactionKeepsValid(saved, Befriend(requester, target, note, clientId, newId));
      var answer := ApplyStatements(requester, target, note, clientId, newId, fault);
      if answer.None? || fault.Throws? {
        Rollback(saved);
        return FFailed;
      }
      return if fault == Clean then answer.value else FFailed;
    }

    method ApplyStatements(requester: int, target: int, note: string, clientId: string, newId: int, fault: Fault)
      returns (result: Option<FriendResult>)
      requires FriendGraph.RequestKeysUnique(View()) && newId !in requests
      modifies this
      ensures result.None? ==> fault.Throws?
      ensures result.Some? ==> (View(), result.value) == ApplyFriend(old(View()), requester, target, note, clientId, newId)
    {
      if requester <= 0 || target <= 0 || requester == target || clientId == "" {
        return Some(FFailed);
      }
      if ThrowsAt(fault, 0) {
        return None;
      }
      if target !in users || requester !in users {
        return Some(FNotFound);
      }
      if ThrowsAt(fault, 1) {
        return None;
      }
      if Pair(requester, target) in friendships {
        return Some(AlreadyFriends);
      }
      if ThrowsAt(fault, 2) {
        return None;
      }
      if id :| id in requests && requests[id].requester == requester && requests[id].clientId == clientId {
        RequestKeyIsUnique(View(), id, requester, clientId);
        return Some(if requests[id].target == target && requests[id].note == note then FDuplicate else FConflict);
      }
      NoRequestKey(View(), requester, clientId);
      if exists id :: id in requests && IsWaiting(View(), id, requester, target) {
        return Some(FDuplicate);
      }
      if ThrowsAt(fault, 3) {
        return None;
      }
      requests := requests[newId := NewRequest(requester, target, clientId, note)];
      if ThrowsAt(fault, 4) {
        return None;
      }
      var ok, seqNo := AllocateEventSeq(target);
      if ThrowsAt(fault, 5) {
        return None;
      }
      InsertEvent(target, seqNo, FriendEvent(FriendApply, newId));
      return Some(FStored);
    }

    method HandleFriendApply(handler: int, request: int, accept: bool, newThread: int, fault: Fault) returns (result: FriendResult)
      requires Valid() && newThread > 0 && newThread !in chats
      modifies this
      ensures Valid()
      ensures View() == if fault.Throws? then old(View()) else HandleFriend(old(View()), handler, request, accept, newThread).0
      ensures result == if fault == Clean then HandleFriend(old(View()), handler, request, accept, newThread).1 else FFailed
    {
      var saved := View();
      TransactionKeepsValid(saved, Answer(handler, request, accept, newThread));
      var answer := HandleStatements(handler, request, accept, newThread, fault);
      if answer.None? || fault.Throws? {
        Rollback(saved);
        return FFailed;
      }
      return if fault == Clean then answer.value else FFailed;
    }

    method HandleStatements(handler: int, request: int, accept: bool, newThread: int, fault: Fault) returns (result: Option<FriendResult>)
      requires FriendGraph.OneChatPerPair(View()) && newThread !in chats
      modifies this
      ensures result.None? ==> fault.Throws?
      ensures result.Some? ==> (View(), result.value) == HandleFriend(old(View()), handler, request, accept, newThread)
    {
      var saved := View();
      if ThrowsAt(fault, 0) {
        return None;
      }
      if request !in requests {
        return Some(FNotFound);
      }
      var r := requests[request];
      if r.target != handler {
        return Some(Forbidden);
      }
      if r.status != Waiting {
        return Some(if r.status == (if accept then Accepted else Rejected) then FDuplicate else AlreadyHandled);
      }
      var done := MarkAnswered(request, accept, newThread, fault);
      if !done || ThrowsAt(fault, 4) {
        return None;
      }
      var ok, seqNo := AllocateEventSeq(r.requester);
      if !ok {
        Rollback(saved);
        return Some(FFailed);
      }
      if ThrowsAt(fault, 5) {
        return None;
      }
      InsertEvent(r.requester, seqNo, FriendEvent(if accept then FriendAccept else FriendReject, request));
      return Some(FStored);
    }

    /** Chat, friendship and every waiting request of the pair, or the one rejected request; false when
        a statement threw. */
    method MarkAnswered(request: int, accept: bool, newThread: int, fault: Fault) returns (done: bool)
      requires FriendGraph.OneChatPerPair(View()) && newThread !in chats && request in requests
      modifies this
      ensures !done ==> fault.Throws?
      ensures done ==>
                var r := old(requests)[request];
                View() == if accept then AcceptBoth(old(View()), Pair(r.requester, r.target), newThread)
                          else old(View()).(requests := old(requests)[request := r.(status := Rejected)])
    {
      var r := requests[request];
      if ThrowsAt(fault, 1) {
        return false;
      }
      if !accept {
        requests := requests[request := r.(status := Rejected)];
        return true;
      }
      var pair := Pair(r.requester, r.target);
      var thread := InsertChat(pair, newThread);
      if ThrowsAt(fault, 2) {
        return false;
      }
      friendships := friendships + {pair};
      if ThrowsAt(fault, 3) {
        return false;
      }
      requests := AcceptAll(requests, pair, thread);
      return true;
    }

    /** INSERT INTO private_chats ... ON DUPLICATE KEY UPDATE thread_id=LAST_INSERT_ID(thread_id). */
    method InsertChat(pair: (int, int), newThread: int) returns (thread: int)
      requires FriendGraph.OneChatPerPair(View()) && newThread !in chats
      modifies this`chats
      ensures (View(), thread) == EnsureChat(old(View()), pair, newThread)
    {
      if t :| t in chats && chats[t] == pair {
        assert IsChatOf(View(), t, pair);
        return t;
      }
      assert forall t :: !IsChatOf(View(), t, pair);
      chats := chats[newThread := pair];
      return newThread;
    }

    // ---- ResourceServer -------------------------------------------------------------------------------

    method CompleteResourceUploadOnce(message: int, sender: int, fault: Fault) returns (reply: PublishReply)
      requires Valid()
      modifies this
      ensures Valid()
      ensures View() == if fault.Throws? then old(View()) else Publish(old(View()), message, sender).0
      ensures fault == Clean ==> reply == PublishReply(Publish(old(View()), message, sender).1, Publish(old(View()), message, sender).2)
      ensures fault != Clean ==> reply == Transient
    {
      var saved := View();
      TransactionKeepsValid(saved, PublishResource(message, sender));
      var answer := PublishStatements(message, sender, fault);
      if answer == Transient || fault.Throws? {
        Rollback(saved);
        return Transient;
      }
      return if fault == Clean then answer else Transient;
    }

    /** The statements, up to the one that throws. */
    method PublishStatements(message: int, sender: int, fault: Fault) returns (answer: PublishReply)
      requires Valid()
      modifies this
      ensures answer == Transient ==> fault.Throws?
      ensures answer != Transient ==>
                var spec := Publish(old(View()), message, sender);
                View() == spec.0 && answer == PublishReply(spec.1, spec.2)
    {
      if ThrowsAt(fault, 0) {
        return Transient;
      }
      if message !in messages || messages[message].resource.None? || messages[message].sender != sender
         || messages[message].thread !in chats || !IsResourceKind(messages[message].kind)
         || OtherMember(chats[messages[message].thread], sender) <= 0 {
        return NO_SUCH_ROW;
      }
      answer := PublishRow(message, fault);
    }

    method PublishRow(message: int, fault: Fault) returns (answer: PublishReply)
      requires Valid() && message in messages && messages[message].resource.Some? && messages[message].thread in chats
      requires IsResourceKind(messages[message].kind) && Recipient(View(), messages[message]) > 0
      modifies this
      ensures answer == Transient ==> fault.Throws?
      ensures answer != Transient ==>
                var spec := Publish(old(View()), message, old(messages)[message].sender);
                View() == spec.0 && answer == PublishReply(spec.1, spec.2)
    {
      var row := messages[message];
      var recipient := OtherMember(chats[row.thread], row.sender);
      if ThrowsAt(fault, 1) {
        return Transient;
      }
      if row.status == Published {
        var existing := FindEvent(recipient, MessageEvent(row.kind, message));
        if existing == 0 {
          return NO_SUCH_ROW;
        }
        return PublishReply(AlreadyPublished, existing);
      }
      if row.status != Pending {
        return PublishReply(NotPending, 0);
      }
      var ok, seqNo := AllocateEventSeq(recipient);
      if !ok {
        return NO_SUCH_ROW;
      }
      if ThrowsAt(fault, 2) {
        return Transient;
      }
      messages := messages[message := row.(status := Published)];
      if ThrowsAt(fault, 3) {
        return Transient;
      }
      InsertEvent(recipient, seqNo, MessageEvent(row.kind, message));
      return PublishReply(NowPublished, seqNo);
    }

    /** CompleteResourceUpload: at most three attempts while they end in a deadlock. */
    method CompleteResourceUpload(message: int, sender: int, faults: seq<Fault>) returns (reply: PublishReply)
      requires Valid()
      modifies this
      ensures Valid()
      ensures View() == old(View()) || View() == Publish(old(View()), message, sender).0
      ensures reply != Transient ==> View() == Publish(old(View()), message, sender).0
      ensures reply != Transient ==>
                reply == PublishReply(Publish(old(View()), message, sender).1, Publish(old(View()), message, sender).2)
      ensures forall k :: Survives(faults, PUBLISH_RETRIES, k) ==> reply != Transient
    {
      ghost var db := View();
      var attempt := 1;
      while true
        invariant 1 <= attempt <= PUBLISH_ATTEMPTS && Valid() && View() == db
        invariant forall i :: 0 <= i < attempt - 1 ==> i < |faults| && IsDeadlock(faults[i])
        decreases PUBLISH_ATTEMPTS - attempt
      {
        var fault := if attempt - 1 < |faults| then faults[attempt - 1] else Clean;
        reply := CompleteResourceUploadOnce(message, sender, fault);
        if reply != Transient || !IsDeadlock(fault) || attempt >= PUBLISH_ATTEMPTS {
          return;
        }
        attempt := attempt + 1;
      }
    }

    /** SELECT of the message with its resource and event number; None when a join finds nothing. */
    method GetChatMsgById(message: int) returns (row: Option<(Message, nat)>)
      requires Valid()
      ensures row == if message in messages && messages[message].resource.Some? && messages[message].thread in chats
                     then Some((messages[message], EventSeqOf(View(), Recipient(View(), messages[message]),
                                                              MessageEvent(messages[message].kind, message))))
                     else None
    {
      if message !in messages || messages[message].resource.None? || messages[message].thread !in chats {
        return None;
      }
      var m := messages[message];
      var seqNo := FindEvent(OtherMember(chats[m.thread], m.sender), MessageEvent(m.kind, message));
      return Some((m, seqNo));
    }

    /** MarkResourceFailed: true only when this very call changed the row. */
    method MarkResourceFailed(message: int, fault: Fault) returns (ok: bool)
      requires Valid()
      modifies this
      ensures Valid()
      ensures View() == if fault.Throws? then old(View()) else Expire(old(View()), [message])
      ensures ok == (fault == Clean && message in old(messages) && old(messages)[message].status == Pending)
    {
      ghost var db := View();
      TransactionKeepsValid(db, ExpireResources([message]));
      if fault.Throws? {
        return false;
      }
      ok := fault == Clean && message in messages && messages[message].status == Pending;
      var done := ExpireEach([message], fault);
    }

    /** MarkResourceExpired: one conditional update per item, one commit. */
    method MarkResourceExpired(ids: seq<int>, fault: Fault) returns (ok: bool)
      requires Valid()
      modifies this
      ensures Valid()
      ensures View() == if fault.Throws? then old(View()) else Expire(old(View()), ids)
      ensures ok == (ids == [] || fault == Clean)
    {
      ghost var db := View();
      TransactionKeepsValid(db, ExpireResources(ids));
      if ids == [] {
        return true;
      }
      var saved := View();
      var done := ExpireEach(ids, fault);
      if !done || fault.Throws? {
        Rollback(saved);
        return false;
      }
      return fault == Clean;
    }

    /** One conditional update per item; false when one of them threw. */
    method ExpireEach(ids: seq<int>, fault: Fault) returns (done: bool)
      modifies this`messages
      ensures !done ==> fault.Throws?
      ensures done ==> View() == Expire(old(View()), ids)
    {
      ghost var before := messages;
      for n := 0 to |ids|
        invariant ExpiredRows(before, ids[..n], messages)
      {
        if ThrowsAt(fault, n) {
          return false;
        }
        var id := ids[n];
        assert ids[..n + 1] == ids[..n] + [id];
        if id in messages && messages[id].status == Pending {
          messages := messages[id := messages[id].(status := Failed)];
        }
      }
      assert ids[..|ids|] == ids;
      ExpireIsExact(old(View()), ids, messages);
      return true;
    }
  }

  lemma TransactionKeepsValid(db: Db, op: Op)
    requires EventLog.LogInv(db) && FriendGraph.GraphInv(db) && FreshIds(db, op)
    ensures EventLog.LogInv(Commit(db, op)) && FriendGraph.GraphInv(Commit(db, op))
  {
    EventLog.TransactionKeepsLog(db, op, Commit(db, op));
    FriendGraph.TransactionKeepsGraph(db, op, Commit(db, op));
  }

  /** `rows` is `before` with the pending rows among `ids` failed. */
  ghost predicate ExpiredRows(before: map<int, Message>, ids: seq<int>, rows: map<int, Message>) {
    && rows.Keys == before.Keys
    && forall id :: id in rows ==> rows[id] == ExpiredRow(before[id], id in ids)
  }

  function ExpiredRow(row: Message, listed: bool): Message {
    if listed && row.status == Pending then row.(status := Failed) else row
  }

  lemma ExpireIsExact(db: Db, ids: seq<int>, rows: map<int, Message>)
    requires ExpiredRows(db.messages, ids, rows)
    ensures db.(messages := rows) == Expire(db, ids)
  {
    var expired := Expire(db, ids).messages;
    assert forall id :: id in rows ==> rows[id] == expired[id];
    assert rows == expired;
  }

  /** Attempt k is the first clean one, every earlier one was a deadlock, and the budget covers it. */
  predicate Survives(faults: seq<Fault>, retries: nat, k: nat) {
    && k <= retries && k <= |faults|
    && (forall i :: 0 <= i < k ==> IsDeadlock(faults[i]))
    && (k < |faults| ==> faults[k] == Clean)
  }

  lemma KeyIsUnique(db: Db, id: int, req: SendRequest)
    requires EventLog.KeysUnique(db) && HasKey(db, id, req.sender, req.clientId)
    ensures MessageByKey(db, req.sender, req.clientId) == Some(id)
  {
    var found := MessageByKey(db, req.sender, req.clientId);
    assert EventLog.SameKey(db.messages[id], db.messages[found.value]);
  }

  lemma NoKey(db: Db, req: SendRequest)
    requires forall id :: id in db.messages ==> !(db.messages[id].sender == req.sender && db.messages[id].clientId == req.clientId)
    ensures MessageByKey(db, req.sender, req.clientId) == None
  {
  }

  lemma RequestKeyIsUnique(db: Db, id: int, requester: int, clientId: string)
    requires FriendGraph.RequestKeysUnique(db) && HasRequestKey(db, id, requester, clientId)
    ensures RequestByKey(db, requester, clientId) == Some(id)
  {
    var found := RequestByKey(db, requester, clientId);
    assert FriendGraph.SameRequestKey(db.requests[id], db.requests[found.value]);
  }

  lemma NoRequestKey(db: Db, requester: int, clientId: string)
    requires forall id :: id in db.requests ==> !(db.requests[id].requester == requester && db.requests[id].clientId == clientId)
    ensures RequestByKey(db, requester, clientId) == None
  {
  }
}
