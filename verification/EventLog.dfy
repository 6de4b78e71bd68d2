/** What every history of committed and rolled-back transactions keeps true of the event log. */
module EventLog {
  import opened Basics
  import opened Store

  // ---- Invariants --------------------------------------------------------------------------------

  /** Foreign keys and CHECK constraints of the schema. */
  ghost predicate WellFormed(db: Db) {
    && (forall u :: u in db.users ==> u > 0)
    && (forall t :: t in db.chats ==>
          db.chats[t].0 < db.chats[t].1 && db.chats[t].0 in db.users && db.chats[t].1 in db.users)
    && (forall m :: m in db.messages ==> MessageOk(db, m))
    && (forall r :: r in db.requests ==>
          db.requests[r].requester in db.users && db.requests[r].target in db.users
          && db.requests[r].requester != db.requests[r].target)
  }

  ghost predicate MessageOk(db: Db, m: int)
    requires m in db.messages
  {
    var row := db.messages[m];
    && IsMember(db, row.thread, row.sender)
    && (if IsResourceKind(row.kind) then row.resource.Some? && row.text == "" else row.kind == TEXT && row.resource.None? && row.status == Published)
  }

  /** Each user's events carry exactly the numbers 1..last_event_seq. */
  ghost predicate Dense(db: Db) {
    forall u, k :: (u, k) in db.events <==> u in db.users && 1 <= k <= db.users[u]
  }

  /** What a row of user_events says about the row it refers to. */
  ghost predicate Refers(db: Db, user: int, event: Event) {
    match event
    case MessageEvent(kind, m) =>
      && m in db.messages && db.messages[m].status == Published && db.messages[m].kind == kind
      && db.messages[m].thread in db.chats && user == Recipient(db, db.messages[m])
    case FriendEvent(news, r) =>
      && r in db.requests
      && match news
         case FriendApply => user == db.requests[r].target
         case FriendAccept => user == db.requests[r].requester && db.requests[r].status == Accepted
         case FriendReject => user == db.requests[r].requester && db.requests[r].status == Rejected
  }

  ghost predicate Sound(db: Db) {
    forall u, k :: (u, k) in db.events ==> Refers(db, u, db.events[(u, k)])
  }

  ghost predicate Distinct(db: Db) {
    forall u, j, k :: (u, j) in db.events && (u, k) in db.events && db.events[(u, j)] == db.events[(u, k)] ==> j == k
  }

  ghost predicate Logged(db: Db, user: int, event: Event) {
    exists k :: EventAt(db, user, k, event)
  }

  /** Everything that must be announced has been announced. */
  ghost predicate Complete(db: Db) {
    && (forall m :: m in db.messages && db.messages[m].status == Published && db.messages[m].thread in db.chats ==>
          Logged(db, Recipient(db, db.messages[m]), MessageEvent(db.messages[m].kind, m)))
    && (forall r :: r in db.requests ==>
          && Logged(db, db.requests[r].target, FriendEvent(FriendApply, r))
          && (db.requests[r].status == Rejected ==> Logged(db, db.requests[r].requester, FriendEvent(FriendReject, r))))
  }

  predicate SameKey(m: Message, n: Message) {
    m.sender == n.sender && m.clientId == n.clientId
  }

  /** uk_chat_messages_client. */
  ghost predicate KeysUnique(db: Db) {
    forall a, b :: a in db.messages && b in db.messages && SameKey(db.messages[a], db.messages[b]) ==> a == b
  }

  ghost predicate LogInv(db: Db) {
    WellFormed(db) && Dense(db) && Sound(db) && Distinct(db) && Complete(db) && KeysUnique(db)
  }

  // ---- Growth: what a transaction never undoes ----------------------------------------------------

  predicate MessageGrows(m: Message, m': Message) {
    m' == m.(status := m'.status) && (m.status != Pending ==> m'.status == m.status)
  }

  predicate RequestGrows(r: FriendRequest, r': FriendRequest) {
    r' == r.(status := r'.status, thread := r'.thread) && (r.status != Waiting ==> r' == r)
  }

  /** Rows are never deleted, chats and events never change, and Published, Failed, Accepted and
      Rejected are final. */
  ghost predicate Grows(db: Db, db': Db) {
    && (forall u :: u in db.users ==> u in db'.users && db.users[u] <= db'.users[u])
    && (forall t :: t in db.chats ==> t in db'.chats && db'.chats[t] == db.chats[t])
    && (forall m :: m in db.messages ==> m in db'.messages && MessageGrows(db.messages[m], db'.messages[m]))
    && (forall r :: r in db.requests ==> r in db'.requests && RequestGrows(db.requests[r], db'.requests[r]))
    && (forall e :: e in db.events ==> e in db'.events && db'.events[e] == db.events[e])
  }

  // ---- Generic steps --------------------------------------------------------------------------------

  /** A change of rows that announces nothing. */
  ghost predicate Silent(db: Db, db1: Db) {
    WellFormed(db1) && KeysUnique(db1) && Grows(db, db1) && db1.events == db.events && db1.users == db.users
  }

  lemma SoundAfterSilence(db: Db, db1: Db)
    requires Sound(db) && Grows(db, db1) && db1.events == db.events
    ensures Sound(db1)
  {
    forall u, k | (u, k) in db1.events ensures Refers(db1, u, db1.events[(u, k)]) {
      assert Refers(db, u, db.events[(u, k)]);
    }
  }

  lemma LoggedGrows(db: Db, db': Db)
    requires forall e :: e in db.events ==> e in db'.events && db'.events[e] == db.events[e]
    ensures forall u, e :: Logged(db, u, e) ==> Logged(db', u, e)
  {
    forall u, e | Logged(db, u, e) ensures Logged(db', u, e) {
      var k :| EventAt(db, u, k, e);
      assert EventAt(db', u, k, e);
    }
  }

  /** A silent change under which nothing new has to be announced. */
  lemma SilenceKeepsLog(db: Db, db1: Db)
    requires LogInv(db) && Silent(db, db1) && NothingNew(db, db1)
    ensures LogInv(db1)
  {
    SoundAfterSilence(db, db1);
    assert Complete(db1) by { LoggedGrows(db, db1); }
  }

  lemma AppendKeepsSound(db: Db, user: int, event: Event)
    requires Dense(db) && Sound(db) && user in db.users && Refers(db, user, event)
    ensures Sound(Append(db, user, event))
  {
    var db' := Append(db, user, event);
    forall u, k | (u, k) in db'.events ensures Refers(db', u, db'.events[(u, k)]) {
      if (u, k) != (user, db.users[user] + 1) {
        assert Refers(db, u, db.events[(u, k)]);
      }
    }
  }

  lemma AppendKeepsDistinct(db: Db, user: int, event: Event)
    requires Dense(db) && Distinct(db) && user in db.users
    requires forall k :: !EventAt(db, user, k, event)
    ensures Distinct(Append(db, user, event))
  {
    var db' := Append(db, user, event);
    var n := db.users[user] + 1;
    forall u, j, k | (u, j) in db'.events && (u, k) in db'.events && db'.events[(u, j)] == db'.events[(u, k)]
      ensures j == k
    {
      assert u == user && j != n ==> !EventAt(db, user, j, event);
      assert u == user && k != n ==> !EventAt(db, user, k, event);
    }
  }

  /** A reference that the sound old log could not have held is not in the log. */
  lemma NotYetLogged(db: Db, user: int, event: Event)
    requires Sound(db) && !Refers(db, user, event)
    ensures forall k :: !EventAt(db, user, k, event)
  {
    forall k: nat ensures !EventAt(db, user, k, event) {
      assert (user, k) in db.events ==> Refers(db, user, db.events[(user, k)]);
    }
  }

  /** A published message of db1 was published before. */
  ghost predicate OldMessage(db: Db, db1: Db, m: int)
    requires m in db1.messages && db1.messages[m].thread in db1.chats
  {
    && m in db.messages && db.messages[m].status == Published && db.messages[m].thread in db.chats
    && db.messages[m].kind == db1.messages[m].kind && Recipient(db, db.messages[m]) == Recipient(db1, db1.messages[m])
  }

  /** What has to be announced in db1 beyond db is exactly `event` to `user`. */
  ghost predicate OnlyNews(db: Db, db1: Db, user: int, event: Event) {
    && (forall m :: m in db1.messages && db1.messages[m].status == Published && db1.messages[m].thread in db1.chats ==>
          OldMessage(db, db1, m) || (Recipient(db1, db1.messages[m]) == user && event == MessageEvent(db1.messages[m].kind, m)))
    && (forall r :: r in db1.requests ==>
          && (if r in db.requests then db.requests[r].target == db1.requests[r].target
              else db1.requests[r].target == user && event == FriendEvent(FriendApply, r))
          && (db1.requests[r].status == Rejected ==>
                || (r in db.requests && db.requests[r].status == Rejected && db.requests[r].requester == db1.requests[r].requester)
                || (db1.requests[r].requester == user && event == FriendEvent(FriendReject, r))))
  }

  ghost predicate NothingNew(db: Db, db1: Db) {
    && (forall m :: m in db1.messages && db1.messages[m].status == Published && db1.messages[m].thread in db1.chats ==>
          OldMessage(db, db1, m))
    && db1.requests == db.requests
  }

  lemma AppendCompletes(db: Db, db1: Db, user: int, event: Event)
    requires Complete(db) && Dense(db1) && db1.events == db.events && user in db1.users && OnlyNews(db, db1, user, event)
    ensures Complete(Append(db1, user, event))
  {
    var db' := Append(db1, user, event);
    assert (user, db1.users[user] + 1) !in db1.events;
    LoggedGrows(db, db');
    assert EventAt(db', user, db1.users[user] + 1, event);
  }

  lemma AppendGrows(db0: Db, db: Db, user: int, event: Event)
    requires Grows(db0, db) && Dense(db) && user in db.users
    ensures Grows(db0, Append(db, user, event))
  {
    assert (user, db.users[user] + 1) !in db.events;
  }

  lemma AppendKeepsRows(db: Db, user: int, event: Event)
    requires WellFormed(db) && KeysUnique(db) && user in db.users
    ensures WellFormed(Append(db, user, event)) && KeysUnique(Append(db, user, event))
  {
    var db' := Append(db, user, event);
    forall m | m in db'.messages ensures MessageOk(db', m) {
      assert MessageOk(db, m);
    }
  }

  /** A row change together with the one event that announces it. */
  lemma AnnouncedChangeKeepsLog(db: Db, db1: Db, user: int, event: Event)
    requires LogInv(db) && Silent(db, db1) && user in db1.users
    requires Refers(db1, user, event) && !Refers(db, user, event) && OnlyNews(db, db1, user, event)
    ensures LogInv(Append(db1, user, event)) && Grows(db, Append(db1, user, event))
  {
    SoundAfterSilence(db, db1);
    AppendKeepsSound(db1, user, event);
    assert Distinct(Append(db1, user, event)) by {
      NotYetLogged(db, user, event);
      assert forall k :: EventAt(db1, user, k, event) <==> EventAt(db, user, k, event);
      AppendKeepsDistinct(db1, user, event);
    }
    AppendCompletes(db, db1, user, event);
    AppendGrows(db, db1, user, event);
    AppendKeepsRows(db1, user, event);
  }

  // ---- Messages --------------------------------------------------------------------------------------

  lemma SaveKeepsLog(db: Db, req: SendRequest, id: int)
    requires LogInv(db) && id > 0 && id !in db.messages
    ensures var db' := SaveMessage(db, req, id).0; LogInv(db') && Grows(db, db')
  {
    var (db', reply) := SaveMessage(db, req, id);
    if reply.result == Stored {
      var db1 := db.(messages := db.messages[id := NewMessage(req, reply.status)]);
      NewMessageIsSilent(db, req, id, db1);
      if IsResourceKind(req.kind) {
        SilenceKeepsLog(db, db1);
      } else {
        var recipient := OtherMember(db.chats[req.thread], req.sender);
        AnnouncedChangeKeepsLog(db, db1, recipient, MessageEvent(req.kind, id));
      }
    } else {
      GrowsReflexive(db);
    }
  }

  lemma GrowsReflexive(db: Db)
    ensures Grows(db, db)
  {
  }

  lemma NewMessageIsSilent(db: Db, req: SendRequest, id: int, db1: Db)
    requires WellFormed(db) && KeysUnique(db) && id !in db.messages
    requires IsMember(db, req.thread, req.sender) && Storable(req) && MessageByKey(db, req.sender, req.clientId) == None
    requires db1 == db.(messages := db.messages[id := NewMessage(req, if IsResourceKind(req.kind) then Pending else Published)])
    ensures Silent(db, db1)
    ensures if IsResourceKind(req.kind) then NothingNew(db, db1)
            else OnlyNews(db, db1, OtherMember(db.chats[req.thread], req.sender), MessageEvent(req.kind, id))
  {
    forall m | m in db1.messages ensures MessageOk(db1, m) {
      if m != id { assert MessageOk(db, m); }
    }
    forall a | a in db.messages ensures !(db.messages[a].sender == req.sender && db.messages[a].clientId == req.clientId) {
      assert !HasKey(db, a, req.sender, req.clientId);
    }
  }

  lemma PublishKeepsLog(db: Db, id: int, sender: int)
    requires LogInv(db)
    ensures var db' := Publish(db, id, sender).0; LogInv(db') && Grows(db, db')
  {
    var (db', result, _) := Publish(db, id, sender);
    if result == NowPublished {
      var m := db.messages[id];
      var db1 := SetStatus(db, id, Published);
      StatusChangeIsSilent(db, id, Published);
      AnnouncedChangeKeepsLog(db, db1, Recipient(db, m), MessageEvent(m.kind, id));
    } else {
      GrowsReflexive(db);
    }
  }

  lemma StatusChangeIsSilent(db: Db, id: int, status: Status)
    requires WellFormed(db) && KeysUnique(db) && id in db.messages && IsResourceKind(db.messages[id].kind)
    requires db.messages[id].status == Pending && db.messages[id].thread in db.chats
    ensures var db1 := SetStatus(db, id, status);
            && Silent(db, db1)
            && OnlyNews(db, db1, Recipient(db, db.messages[id]), MessageEvent(db.messages[id].kind, id))
  {
    var db1 := SetStatus(db, id, status);
    forall m | m in db1.messages ensures MessageOk(db1, m) {
      assert MessageOk(db, m);
    }
  }

  lemma ExpireKeepsLog(db: Db, ids: seq<int>)
    requires LogInv(db)
    ensures var db' := Expire(db, ids); LogInv(db') && Grows(db, db')
  {
    var db' := Expire(db, ids);
    ExpireIsSilent(db, ids);
    SilenceKeepsLog(db, db');
  }

  lemma ExpireIsSilent(db: Db, ids: seq<int>)
    requires WellFormed(db) && KeysUnique(db)
    ensures Silent(db, Expire(db, ids)) && NothingNew(db, Expire(db, ids))
  {
    ExpireKeepsRows(db, ids, Expire(db, ids));
  }

  /** What the update statement says of the rows is all that matters here. */
  lemma ExpireKeepsRows(db: Db, ids: seq<int>, db': Db)
    requires WellFormed(db) && KeysUnique(db)
    requires db' == db.(messages := db'.messages) && db'.messages.Keys == db.messages.Keys
    requires forall m :: m in db.messages ==>
               db'.messages[m] == db.messages[m] || (db.messages[m].status == Pending && db'.messages[m] == db.messages[m].(status := Failed))
    ensures Silent(db, db') && NothingNew(db, db')
  {
    forall m | m in db'.messages ensures MessageOk(db', m) {
      assert MessageOk(db, m);
    }
    forall a, b | a in db'.messages && b in db'.messages && SameKey(db'.messages[a], db'.messages[b]) ensures a == b {
      assert SameKey(db.messages[a], db.messages[b]);
    }
  }

  // ---- Users and chats ---------------------------------------------------------------------------------

  lemma RegisterKeepsLog(db: Db, user: int)
    requires LogInv(db) && user > 0 && user !in db.users
    ensures var db' := db.(users := db.users[user := 0]); LogInv(db') && Grows(db, db')
  {
    var db' := db.(users := db.users[user := 0]);
    MessagesStayOk(db, db');
    SoundAfterSilence(db, db');
    LoggedGrows(db, db');
  }

  lemma MessagesStayOk(db: Db, db1: Db)
    requires WellFormed(db) && db1.messages == db.messages
    requires forall t :: t in db.chats ==> t in db1.chats && db1.chats[t] == db.chats[t]
    ensures forall m :: m in db1.messages ==> MessageOk(db1, m) && db1.messages[m].thread in db.chats
  {
    forall m | m in db1.messages ensures MessageOk(db1, m) && db1.messages[m].thread in db.chats {
      assert MessageOk(db, m);
    }
  }

  lemma EnsureChatIsSilent(db: Db, pair: (int, int), newThread: int)
    requires WellFormed(db) && KeysUnique(db) && newThread !in db.chats
    requires pair.0 < pair.1 && pair.0 in db.users && pair.1 in db.users
    ensures var (db1, t) := EnsureChat(db, pair, newThread);
            Silent(db, db1) && NothingNew(db, db1) && IsChatOf(db1, t, pair)
  {
    var (db1, t) := EnsureChat(db, pair, newThread);
    MessagesStayOk(db, db1);
  }

  lemma CreateChatKeepsLog(db: Db, pair: (int, int), newThread: int)
    requires LogInv(db) && newThread !in db.chats
    requires pair.0 < pair.1 && pair.0 in db.users && pair.1 in db.users
    ensures var db' := EnsureChat(db, pair, newThread).0; LogInv(db') && Grows(db, db')
  {
    EnsureChatIsSilent(db, pair, newThread);
    SilenceKeepsLog(db, EnsureChat(db, pair, newThread).0);
  }

  // ---- Friends ------------------------------------------------------------------------------------------

  lemma ApplyKeepsLog(db: Db, a: int, b: int, note: string, clientId: string, id: int)
    requires LogInv(db) && id > 0 && id !in db.requests
    ensures var db' := ApplyFriend(db, a, b, note, clientId, id).0; LogInv(db') && Grows(db, db')
  {
    ApplyShape(db, a, b, note, clientId, id);
    GrowsReflexive(db);
    if a in db.users && b in db.users && a != b {
      var row := NewRequest(a, b, clientId, note);
      NewRequestIsSilent(db, id, row);
      AnnouncedChangeKeepsLog(db, db.(requests := db.requests[id := row]), b, FriendEvent(FriendApply, id));
    }
  }

  lemma ApplyShape(db: Db, a: int, b: int, note: string, clientId: string, id: int)
    ensures var db' := ApplyFriend(db, a, b, note, clientId, id).0;
            || db' == db
            || (a in db.users && b in db.users && a != b
                && db' == Append(db.(requests := db.requests[id := NewRequest(a, b, clientId, note)]), b, FriendEvent(FriendApply, id)))
  {
  }

  lemma NewRequestIsSilent(db: Db, id: int, row: FriendRequest)
    requires WellFormed(db) && KeysUnique(db) && id !in db.requests
    requires row.requester in db.users && row.target in db.users && row.requester != row.target && row.status == Waiting
    ensures var db1 := db.(requests := db.requests[id := row]);
            Silent(db, db1) && OnlyNews(db, db1, row.target, FriendEvent(FriendApply, id))
  {
    MessagesStayOk(db, db.(requests := db.requests[id := row]));
  }

  lemma AnswerKeepsLog(db: Db, handler: int, request: int, accept: bool, newThread: int)
    requires LogInv(db) && newThread !in db.chats
    ensures var db' := HandleFriend(db, handler, request, accept, newThread).0; LogInv(db') && Grows(db, db')
  {
    var (db', result) := HandleFriend(db, handler, request, accept, newThread);
    if result == FStored {
      var r := db.requests[request];
      if accept {
        var db1 := AcceptBoth(db, Pair(r.requester, r.target), newThread);
        AcceptIsSilent(db, request, newThread);
        AnnouncedChangeKeepsLog(db, db1, r.requester, FriendEvent(FriendAccept, request));
      } else {
        var db1 := db.(requests := db.requests[request := r.(status := Rejected)]);
        RejectIsSilent(db, request);
        AnnouncedChangeKeepsLog(db, db1, r.requester, FriendEvent(FriendReject, request));
      }
    } else {
      GrowsReflexive(db);
    }
  }

  lemma AcceptIsSilent(db: Db, request: int, newThread: int)
    requires WellFormed(db) && KeysUnique(db) && newThread !in db.chats && request in db.requests
    requires db.requests[request].status == Waiting
    ensures var r := db.requests[request];
            var db1 := AcceptBoth(db, Pair(r.requester, r.target), newThread);
            && Silent(db, db1) && db1.requests[request].status == Accepted
            && OnlyNews(db, db1, r.requester, FriendEvent(FriendAccept, request))
  {
    var r := db.requests[request];
    var pair := Pair(r.requester, r.target);
    EnsureChatIsSilent(db, pair, newThread);
    MessagesStayOk(db, AcceptBoth(db, pair, newThread));
  }

  lemma RejectIsSilent(db: Db, request: int)
    requires WellFormed(db) && KeysUnique(db) && request in db.requests && db.requests[request].status == Waiting
    ensures var r := db.requests[request];
            var db1 := db.(requests := db.requests[request := r.(status := Rejected)]);
            Silent(db, db1) && OnlyNews(db, db1, r.requester, FriendEvent(FriendReject, request))
  {
    MessagesStayOk(db, db.(requests := db.requests[request := db.requests[request].(status := Rejected)]));
  }

  // ---- Histories -------------------------------------------------------------------------------------------

  lemma TransactionKeepsLog(db: Db, op: Op, db': Db)
    requires LogInv(db) && Transaction(db, op, db')
    ensures LogInv(db') && Grows(db, db')
  {
    if db' != db {
      match op
      case Register(u) => RegisterKeepsLog(db, u);
      case CreateChat(a, b, t) =>
        if !(a <= 0 || b <= 0 || a == b || a !in db.users || b !in db.users) {
          CreateChatKeepsLog(db, Pair(a, b), t);
        }
      case Send(req, id) => SaveKeepsLog(db, req, id);
      case PublishResource(m, s) => PublishKeepsLog(db, m, s);
      case ExpireResources(ids) => ExpireKeepsLog(db, ids);
      case Befriend(a, b, note, cid, id) => ApplyKeepsLog(db, a, b, note, cid, id);
      case Answer(h, r, accept, t) => AnswerKeepsLog(db, h, r, accept, t);
    }
  }

  /** Starting from empty tables, after any mix of committed and rolled-back transactions of both
      servers the log is dense, sound, complete and free of duplicates. */
  lemma {:induction false} HistoryKeepsLog(dbs: seq<Db>, ops: seq<Op>, i: nat)
    requires IsHistory(dbs, ops) && i < |dbs|
    ensures LogInv(dbs[i])
  {
    if i > 0 {
      HistoryKeepsLog(dbs, ops, i - 1);
      TransactionKeepsLog(dbs[i - 1], ops[i - 1], dbs[i]);
    }
  }

  lemma {:induction false} HistoryGrows(dbs: seq<Db>, ops: seq<Op>, i: nat, j: nat)
    requires IsHistory(dbs, ops) && i <= j < |dbs|
    ensures Grows(dbs[i], dbs[j])
    decreases j - i
  {
    if i < j {
      HistoryGrows(dbs, ops, i, j - 1);
      HistoryKeepsLog(dbs, ops, j - 1);
      TransactionKeepsLog(dbs[j - 1], ops[j - 1], dbs[j]);
      GrowsTransitive(dbs[i], dbs[j - 1], dbs[j]);
    }
  }

  lemma GrowsTransitive(a: Db, b: Db, c: Db)
    requires Grows(a, b) && Grows(b, c)
    ensures Grows(a, c)
  {
  }

  /** A message has an event if and only if it is published; the event goes to the member of the
      chat who did not send it, and there is only one. */
  lemma OneEventPerPublishedMessage(dbs: seq<Db>, ops: seq<Op>, i: nat, m: int)
    requires IsHistory(dbs, ops) && i < |dbs| && m in dbs[i].messages
    ensures var db := dbs[i];
            && db.messages[m].thread in db.chats
            && IsMember(db, db.messages[m].thread, Recipient(db, db.messages[m])) && Recipient(db, db.messages[m]) != db.messages[m].sender
            && (db.messages[m].status == Published <==>
                  exists k :: EventAt(db, Recipient(db, db.messages[m]), k, MessageEvent(db.messages[m].kind, m)))
            && (forall u, k, kind :: EventAt(db, u, k, MessageEvent(kind, m)) ==>
                  kind == db.messages[m].kind && u == Recipient(db, db.messages[m]))
            && (forall u, j, k, kind :: EventAt(db, u, j, MessageEvent(kind, m)) && EventAt(db, u, k, MessageEvent(kind, m)) ==> j == k)
  {
    var db := dbs[i];
    HistoryKeepsLog(dbs, ops, i);
    assert MessageOk(db, m);
    forall u, k, kind | EventAt(db, u, k, MessageEvent(kind, m))
      ensures kind == db.messages[m].kind && u == Recipient(db, db.messages[m]) && db.messages[m].status == Published
    {
      assert Refers(db, u, db.events[(u, k)]);
    }
    assert db.messages[m].status == Published ==> Logged(db, Recipient(db, db.messages[m]), MessageEvent(db.messages[m].kind, m));
  }

  /** Each user's events carry the numbers 1..last_event_seq, each exactly once, and neither a
      number nor a final status is ever taken back. */
  lemma NumbersAreConsecutive(dbs: seq<Db>, ops: seq<Op>, i: nat, j: nat)
    requires IsHistory(dbs, ops) && i <= j < |dbs|
    ensures forall u, k :: (u, k) in dbs[i].events <==> u in dbs[i].users && 1 <= k <= dbs[i].users[u]
    ensures forall e :: e in dbs[i].events ==> e in dbs[j].events && dbs[j].events[e] == dbs[i].events[e]
    ensures forall m :: m in dbs[i].messages && dbs[i].messages[m].status != Pending ==>
              m in dbs[j].messages && dbs[j].messages[m] == dbs[i].messages[m]
  {
    HistoryKeepsLog(dbs, ops, i);
    HistoryGrows(dbs, ops, i, j);
  }
}
