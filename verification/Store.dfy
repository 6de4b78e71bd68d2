/** The MySQL tables that ChatServer and ResourceServer share, and the transactions of both
    MysqlDao.cpp files as functions from the tables they read to the tables they commit.

    A transaction is serializable: it sees one state of the tables and either commits the result
    below or leaves the tables alone.  AUTO_INCREMENT values are parameters. */
module Store {
  import opened Basics

  // message_type
  const TEXT: int := 0
  const PIC: int := 1
  const FILE: int := 3

  datatype Status = Pending | Published | Failed

  datatype Resource = Resource(name: string, size: nat, sha: Digest, mime: string)

  datatype Message = Message(thread: int, sender: int, clientId: string, kind: int, text: string,
                             resource: Option<Resource>, createdAt: int, status: Status)

  datatype RequestStatus = Waiting | Accepted | Rejected

  datatype FriendRequest = FriendRequest(requester: int, target: int, clientId: string, note: string,
                                         status: RequestStatus, thread: int)

  datatype FriendNews = FriendApply | FriendAccept | FriendReject

  /** What a user_events row refers to. */
  datatype Event = MessageEvent(kind: int, message: int) | FriendEvent(news: FriendNews, request: int)

  /** `users` holds last_event_seq; `events` is keyed by (recipient_user_id, event_seq). */
  datatype Db = Db(users: map<int, nat>, chats: map<int, (int, int)>, messages: map<int, Message>,
                   requests: map<int, FriendRequest>, friendships: set<(int, int)>,
                   events: map<(int, nat), Event>)

  function EmptyDb(): Db {
    Db(map[], map[], map[], map[], {}, map[])
  }

  // ---- Look-ups ----------------------------------------------------------------------------------

  function Pair(a: int, b: int): (int, int) {
    if a <= b then (a, b) else (b, a)
  }

  function OtherMember(pair: (int, int), sender: int): int {
    if pair.0 == sender then pair.1 else pair.0
  }

  predicate IsResourceKind(kind: int) {
    kind == PIC || kind == FILE
  }

  /** The recipient that both servers derive from private_chats; it is never stored. */
  function Recipient(db: Db, m: Message): int
    requires m.thread in db.chats
  {
    OtherMember(db.chats[m.thread], m.sender)
  }

  predicate HasKey(db: Db, id: int, sender: int, clientId: string) {
    id in db.messages && db.messages[id].sender == sender && db.messages[id].clientId == clientId
  }

  ghost function MessageByKey(db: Db, sender: int, clientId: string): (r: Option<int>)
    ensures r.Some? ==> HasKey(db, r.value, sender, clientId)
    ensures r.None? ==> forall id :: !HasKey(db, id, sender, clientId)
  {
    if exists id :: HasKey(db, id, sender, clientId) then
      var id :| HasKey(db, id, sender, clientId);
      Some(id)
    else None
  }

  predicate EventAt(db: Db, user: int, seqNo: nat, event: Event) {
    (user, seqNo) in db.events && db.events[(user, seqNo)] == event
  }

  ghost function EventSeqOf(db: Db, user: int, event: Event): (r: nat)
    ensures r > 0 ==> EventAt(db, user, r, event)
    ensures r == 0 ==> forall k :: k > 0 ==> !EventAt(db, user, k, event)
  {
    if exists k: nat :: k > 0 && EventAt(db, user, k, event) then
      var k: nat :| k > 0 && EventAt(db, user, k, event);
      k
    else 0
  }

  predicate IsChatOf(db: Db, thread: int, pair: (int, int)) {
    thread in db.chats && db.chats[thread] == pair
  }

  ghost function ChatOf(db: Db, pair: (int, int)): (r: Option<int>)
    ensures r.Some? ==> IsChatOf(db, r.value, pair)
    ensures r.None? ==> forall t :: !IsChatOf(db, t, pair)
  {
    if exists t :: IsChatOf(db, t, pair) then
      var t :| IsChatOf(db, t, pair);
      Some(t)
    else None
  }

  predicate HasRequestKey(db: Db, id: int, requester: int, clientId: string) {
    id in db.requests && db.requests[id].requester == requester && db.requests[id].clientId == clientId
  }

  predicate IsWaiting(db: Db, id: int, requester: int, target: int) {
    && id in db.requests && db.requests[id].status == Waiting
    && db.requests[id].requester == requester && db.requests[id].target == target
  }

  /** AllocateEventSeq followed by the INSERT into user_events. */
  function Append(db: Db, user: int, event: Event): Db
    requires user in db.users
  {
    var seqNo := db.users[user] + 1;
    db.(users := db.users[user := seqNo], events := db.events[(user, seqNo) := event])
  }

  // ---- Messages ----------------------------------------------------------------------------------

  datatype SendRequest = SendRequest(thread: int, sender: int, clientId: string, kind: int, text: string,
                                     resource: Option<Resource>, createdAt: int)

  datatype SaveResult = Stored | Duplicate | Conflict | SaveFailed

  /** The reply of AddChatMsg: the canonical id, its status, and the event number once published. */
  datatype SaveReply = SaveReply(result: SaveResult, message: int, status: Status, eventSeq: nat)

  const NOT_SAVED := SaveReply(SaveFailed, 0, Pending, 0)

  predicate SameContent(m: Message, req: SendRequest) {
    m.thread == req.thread && m.sender == req.sender && m.kind == req.kind && m.text == req.text && m.resource == req.resource
  }

  predicate IsMember(db: Db, thread: int, user: int) {
    thread in db.chats && (db.chats[thread].0 == user || db.chats[thread].1 == user)
  }

  predicate Storable(req: SendRequest) {
    if IsResourceKind(req.kind) then req.resource.Some? else req.kind == TEXT
  }

  /** AddChatMsgTransaction: (tables to commit, reply). */
  ghost function SaveMessage(db: Db, req: SendRequest, newId: int): (Db, SaveReply)
  {
    if req.thread <= 0 || req.sender <= 0 || req.clientId == "" then (db, NOT_SAVED)
    else if !IsMember(db, req.thread, req.sender) then (db, NOT_SAVED)
    else
      var recipient := OtherMember(db.chats[req.thread], req.sender);
      match MessageByKey(db, req.sender, req.clientId)
      case Some(id) =>
        var stored := db.messages[id];
        if !SameContent(stored, req) then (db, NOT_SAVED.(result := Conflict))
        else
          var seqNo := if stored.status == Published then EventSeqOf(db, recipient, MessageEvent(stored.kind, id)) else 0;
          (db, SaveReply(Duplicate, id, stored.status, seqNo))
      case None =>
        if !Storable(req) then (db, NOT_SAVED)
        else if IsResourceKind(req.kind) then
          (db.(messages := db.messages[newId := NewMessage(req, Pending)]), SaveReply(Stored, newId, Pending, 0))
        else if recipient !in db.users then (db, NOT_SAVED)
        else
          var db1 := db.(messages := db.messages[newId := NewMessage(req, Published)]);
          (Append(db1, recipient, MessageEvent(req.kind, newId)),
           SaveReply(Stored, newId, Published, db.users[recipient] + 1))
  }

  /** text_content is NULL for a resource message and reads back as the empty string. */
  function NewMessage(req: SendRequest, status: Status): Message {
    Message(req.thread, req.sender, req.clientId, req.kind, if IsResourceKind(req.kind) then "" else req.text,
            if IsResourceKind(req.kind) then req.resource else None, req.createdAt, status)
  }

  datatype PublishResult = NowPublished | AlreadyPublished | NotPending | NotFound

  /** CompleteResourceUploadOnce: (tables to commit, result, event number). */
  ghost function Publish(db: Db, message: int, sender: int): (Db, PublishResult, nat) {
    if message !in db.messages || db.messages[message].resource.None? || db.messages[message].sender != sender
       || db.messages[message].thread !in db.chats || !IsResourceKind(db.messages[message].kind) then (db, NotFound, 0)
    else
      var m := db.messages[message];
      var recipient := Recipient(db, m);
      if recipient <= 0 then (db, NotFound, 0)
      else match m.status
        case Published =>
          var seqNo := EventSeqOf(db, recipient, MessageEvent(m.kind, message));
          if seqNo == 0 then (db, NotFound, 0) else (db, AlreadyPublished, seqNo)
        case Failed => (db, NotPending, 0)
        case Pending =>
          if recipient !in db.users then (db, NotFound, 0)
          else
            (Append(SetStatus(db, message, Published), recipient, MessageEvent(m.kind, message)),
             NowPublished, db.users[recipient] + 1)
  }

  function SetStatus(db: Db, message: int, status: Status): Db
    requires message in db.messages
  {
    db.(messages := db.messages[message := db.messages[message].(status := status)])
  }

  /** UPDATE ... SET status=Failed WHERE status=Pending for a list of ids (MarkResourceFailed is
      the one-element case). */
  function Expire(db: Db, ids: seq<int>): (r: Db)
    ensures r == db.(messages := r.messages) && r.messages.Keys == db.messages.Keys
    ensures forall id :: id in db.messages ==>
              r.messages[id] == if id in ids && db.messages[id].status == Pending
                                then db.messages[id].(status := Failed) else db.messages[id]
    decreases |ids|
  {
    if ids == [] then db
    else
      var head, rest := ids[0], ids[1..];
      var db1 := if head in db.messages && db.messages[head].status == Pending then SetStatus(db, head, Failed) else db;
      assert ids == [head] + rest;
      Expire(db1, rest)
  }

  // ---- Friends -----------------------------------------------------------------------------------

  datatype FriendResult = FStored | FDuplicate | FConflict | AlreadyFriends | FNotFound | Forbidden | AlreadyHandled | FFailed

  ghost function RequestByKey(db: Db, requester: int, clientId: string): (r: Option<int>)
    ensures r.Some? ==> HasRequestKey(db, r.value, requester, clientId)
    ensures r.None? ==> forall id :: !HasRequestKey(db, id, requester, clientId)
  {
    if exists id :: HasRequestKey(db, id, requester, clientId) then
      var id :| HasRequestKey(db, id, requester, clientId);
      Some(id)
    else None
  }

  /** AddFriendApply. */
  ghost function ApplyFriend(db: Db, requester: int, target: int, note: string, clientId: string, newId: int): (Db, FriendResult) {
    if requester <= 0 || target <= 0 || requester == target || clientId == "" then (db, FFailed)
    else if target !in db.users || requester !in db.users then (db, FNotFound)
    else if Pair(requester, target) in db.friendships then (db, AlreadyFriends)
    else match RequestByKey(db, requester, clientId)
      case Some(id) =>
        (db, if db.requests[id].target == target && db.requests[id].note == note then FDuplicate else FConflict)
      case None =>
        if exists id :: IsWaiting(db, id, requester, target) then (db, FDuplicate)
        else
          var db1 := db.(requests := db.requests[newId := NewRequest(requester, target, clientId, note)]);
          (Append(db1, target, FriendEvent(FriendApply, newId)), FStored)
  }

  function NewRequest(requester: int, target: int, clientId: string, note: string): FriendRequest {
    FriendRequest(requester, target, clientId, note, Waiting, 0)
  }

  /** HandleFriendApply. */
  ghost function HandleFriend(db: Db, handler: int, request: int, accept: bool, newThread: int): (Db, FriendResult) {
    if request !in db.requests then (db, FNotFound)
    else
      var r := db.requests[request];
      if r.target != handler then (db, Forbidden)
      else if r.status != Waiting then
        (db, if r.status == (if accept then Accepted else Rejected) then FDuplicate else AlreadyHandled)
      else
        var db1 := if accept then AcceptBoth(db, Pair(r.requester, r.target), newThread)
                   else db.(requests := db.requests[request := r.(status := Rejected)]);
        if r.requester !in db1.users then (db, FFailed)
        else (Append(db1, r.requester, FriendEvent(if accept then FriendAccept else FriendReject, request)), FStored)
  }

  /** The chat of an ordered pair, created when missing: INSERT ... ON DUPLICATE KEY UPDATE. */
  ghost function EnsureChat(db: Db, pair: (int, int), newThread: int): (Db, int) {
    match ChatOf(db, pair)
    case Some(t) => (db, t)
    case None => (db.(chats := db.chats[newThread := pair]), newThread)
  }

  /** Friendship, chat, and every waiting request of the pair in either direction. */
  ghost function AcceptBoth(db: Db, pair: (int, int), newThread: int): Db {
    var (db1, thread) := EnsureChat(db, pair, newThread);
    db1.(friendships := db1.friendships + {pair}, requests := AcceptAll(db1.requests, pair, thread))
  }

  function AcceptAll(requests: map<int, FriendRequest>, pair: (int, int), thread: int): map<int, FriendRequest> {
    map id | id in requests ::
      if requests[id].status == Waiting && Pair(requests[id].requester, requests[id].target) == pair
      then requests[id].(status := Accepted, thread := thread) else requests[id]
  }

  // ---- Operations of both servers -----------------------------------------------------------------

  datatype Op =
    | Register(user: int)
    | CreateChat(requester: int, target: int, newThread: int)
    | Send(req: SendRequest, newMessage: int)
    | PublishResource(message: int, sender: int)
    | ExpireResources(ids: seq<int>)
    | Befriend(from: int, to: int, note: string, clientId: string, newRequest: int)
    | Answer(handler: int, request: int, accept: bool, newThread: int)

  /** AUTO_INCREMENT hands out positive numbers that the table has not used. */
  predicate FreshIds(db: Db, op: Op) {
    match op
    case Register(u) => u > 0 && u !in db.users
    case CreateChat(_, _, t) => t > 0 && t !in db.chats
    case Send(_, m) => m > 0 && m !in db.messages
    case Befriend(_, _, _, _, r) => r > 0 && r !in db.requests
    case Answer(_, _, _, t) => t > 0 && t !in db.chats
    case _ => true
  }

  ghost function Commit(db: Db, op: Op): Db {
    match op
    case Register(u) => db.(users := db.users[u := 0])
    case CreateChat(a, b, t) =>
      if a <= 0 || b <= 0 || a == b || a !in db.users || b !in db.users then db
      else EnsureChat(db, Pair(a, b), t).0
    case Send(req, id) => SaveMessage(db, req, id).0
    case PublishResource(m, s) => Publish(db, m, s).0
    case ExpireResources(ids) => Expire(db, ids)
    case Befriend(a, b, note, cid, id) => ApplyFriend(db, a, b, note, cid, id).0
    case Answer(h, r, accept, t) => HandleFriend(db, h, r, accept, t).0
  }

  /** One transaction of either server: it takes effect or it is rolled back. */
  ghost predicate Transaction(db: Db, op: Op, db': Db) {
    FreshIds(db, op) && (db' == db || db' == Commit(db, op))
  }

  ghost predicate IsHistory(dbs: seq<Db>, ops: seq<Op>) {
    && |dbs| == |ops| + 1
    && dbs[0] == EmptyDb()
    && forall i :: 0 <= i < |ops| ==> Transaction(dbs[i], ops[i], dbs[i + 1])
  }
}
