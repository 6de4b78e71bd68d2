/** Client retries: what the replies to repeated sends of one message have in common
    (server/ChatServer/src/MysqlDao.cpp, AddChatMsg). */
module Replies {
  import opened Basics
  import opened Store
  import opened EventLog

  /** The reply that the transaction at step i computes. */
  ghost function ReplyAt(dbs: seq<Db>, ops: seq<Op>, i: nat): SaveReply
    requires i < |ops| && i < |dbs| && ops[i].Send?
  {
    SaveMessage(dbs[i], ops[i].req, ops[i].newMessage).1
  }

  predicate IsSuccess(reply: SaveReply) {
    reply.result == Stored || reply.result == Duplicate
  }

  /** A send answered with success at step i: the transaction committed and its reply got out.
      A commit whose confirmation was lost is a committed step without an answer. */
  ghost predicate Answered(dbs: seq<Db>, ops: seq<Op>, i: nat) {
    && i < |ops| && |dbs| == |ops| + 1 && ops[i].Send?
    && dbs[i + 1] == Commit(dbs[i], ops[i])
    && IsSuccess(ReplyAt(dbs, ops, i))
  }

  /** What a success reply says about the tables. */
  ghost predicate Describes(db: Db, req: SendRequest, reply: SaveReply) {
    && HasKey(db, reply.message, req.sender, req.clientId)
    && db.messages[reply.message].status == reply.status
    && db.messages[reply.message].thread in db.chats
    && if reply.status == Published
       then reply.eventSeq > 0 && EventAt(db, Recipient(db, db.messages[reply.message]), reply.eventSeq,
                                          MessageEvent(db.messages[reply.message].kind, reply.message))
       else reply.eventSeq == 0
  }

  /** A success reply names the canonical row, its status, and the number of its one event. */
  lemma ReplyDescribesTables(db: Db, req: SendRequest, id: int)
    requires LogInv(db) && id > 0 && id !in db.messages
    requires IsSuccess(SaveMessage(db, req, id).1)
    ensures Describes(SaveMessage(db, req, id).0, req, SaveMessage(db, req, id).1)
  {
    var (db', reply) := SaveMessage(db, req, id);
    if reply.result == Duplicate {
      var m := reply.message;
      assert MessageOk(db, m);
      if reply.status == Published {
        var u, e := Recipient(db, db.messages[m]), MessageEvent(db.messages[m].kind, m);
        assert Logged(db, u, e);
        var k :| EventAt(db, u, k, e);
        assert k > 0;
      }
    }
  }

  /** Any two success replies to sends with one (sender, client_message_id), whatever happened in
      between, name the same message; once published, the same event number. */
  lemma RepliesAgree(dbs: seq<Db>, ops: seq<Op>, i: nat, j: nat)
    requires IsHistory(dbs, ops) && i < j && Answered(dbs, ops, i) && Answered(dbs, ops, j)
    requires ops[i].req.sender == ops[j].req.sender && ops[i].req.clientId == ops[j].req.clientId
    ensures var a, b := ReplyAt(dbs, ops, i), ReplyAt(dbs, ops, j);
            && a.message == b.message
            && (a.status == Published ==> b.status == Published && b.eventSeq == a.eventSeq > 0)
            && (a.status == Failed ==> b.status == Failed)
            && b.result == Duplicate
  {
    var a, b := ReplyAt(dbs, ops, i), ReplyAt(dbs, ops, j);
    AnswerDescribes(dbs, ops, i);
    AnswerDescribes(dbs, ops, j);
    assert b.result == Duplicate by {
      HistoryGrows(dbs, ops, i + 1, j);
      KeyTaken(dbs[j], ops[j].req, ops[j].newMessage, a.message);
    }
    HistoryGrows(dbs, ops, i + 1, j + 1);
    HistoryKeepsLog(dbs, ops, j + 1);
    LaterReplyAgrees(dbs[i + 1], ops[i].req, a, dbs[j + 1], ops[j].req, b);
  }

  lemma AnswerDescribes(dbs: seq<Db>, ops: seq<Op>, i: nat)
    requires IsHistory(dbs, ops) && Answered(dbs, ops, i)
    ensures Describes(dbs[i + 1], ops[i].req, ReplyAt(dbs, ops, i))
  {
    HistoryKeepsLog(dbs, ops, i);
    ReplyDescribesTables(dbs[i], ops[i].req, ops[i].newMessage);
  }

  lemma KeyTaken(db: Db, req: SendRequest, id: int, m: int)
    requires HasKey(db, m, req.sender, req.clientId)
    ensures SaveMessage(db, req, id).1.result != Stored
  {
  }

  lemma LaterReplyAgrees(db: Db, req: SendRequest, a: SaveReply, db': Db, req': SendRequest, b: SaveReply)
    requires Grows(db, db') && LogInv(db')
    requires Describes(db, req, a) && Describes(db', req', b) && req.sender == req'.sender && req.clientId == req'.clientId
    ensures a.message == b.message
    ensures a.status == Published ==> b.status == Published && b.eventSeq == a.eventSeq > 0
    ensures a.status == Failed ==> b.status == Failed
  {
    assert SameKey(db'.messages[a.message], db'.messages[b.message]);
  }

  /** However often a client retries, the pair (sender, client_message_id) owns at most one row and
      that row at most one event. */
  lemma RetriesStoreOnce(dbs: seq<Db>, ops: seq<Op>, i: nat, a: int, b: int)
    requires IsHistory(dbs, ops) && i < |dbs| && a in dbs[i].messages && b in dbs[i].messages
    requires SameKey(dbs[i].messages[a], dbs[i].messages[b])
    ensures a == b
    ensures forall u, v, j, k, x, y :: EventAt(dbs[i], u, j, MessageEvent(x, a)) && EventAt(dbs[i], v, k, MessageEvent(y, b)) ==> u == v && j == k
  {
    HistoryKeepsLog(dbs, ops, i);
    OneEventPerPublishedMessage(dbs, ops, i, a);
  }

  /** Conflict is answered exactly when a member reuses a key for other content, and it commits
      nothing. */
  lemma ConflictIff(db: Db, req: SendRequest, id: int)
    requires LogInv(db)
    ensures SaveMessage(db, req, id).1.result == Conflict <==>
              && req.thread > 0 && req.sender > 0 && req.clientId != "" && IsMember(db, req.thread, req.sender)
              && exists m :: HasKey(db, m, req.sender, req.clientId) && !SameContent(db.messages[m], req)
    ensures SaveMessage(db, req, id).1.result == Conflict ==> SaveMessage(db, req, id).0 == db
  {
    match MessageByKey(db, req.sender, req.clientId)
    case None =>
    case Some(m) =>
      forall n | HasKey(db, n, req.sender, req.clientId) ensures n == m {
        assert SameKey(db.messages[n], db.messages[m]);
      }
  }
}
