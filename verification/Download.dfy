/** The download half of server/ResourceServer/src/FileWorker.cpp: who may read a published file,
    the cache that answers this without the database, the table of open files, and the chunks.

    `uids` is what GetUserId answers per session: unset until the session is authenticated, fixed
    from then on.  A handle keeps reading the file it opened. */
module Download {
  import opened Basics
  import opened Store
  import opened Dao
  import EventLog
  import Up = UploadRuns

  const CACHE_LIMIT: nat := 1024
  const HANDLE_LIMIT: nat := 64
  /** Seconds. */
  const HANDLE_IDLE: nat := 60

  datatype Entry = Entry(first: Option<nat>, sender: int, recipient: int, kind: int, resource: Resource)

  datatype Answer = Authorized(sender: int, recipient: int, kind: int, resource: Resource) | NoAccess | NotReady | NoMessage | DbError

  datatype Handle = Handle(lastUsed: nat, content: Bytes)

  datatype ChunkReply = ChunkReply(error: ErrorCode, raw: Bytes, bytes: nat, hash: Digest, isLast: bool, total: nat)

  /** What a look-up without any cache answers. */
  function Fresh(db: Db, message: int, uid: int): Answer {
    if message !in db.messages || db.messages[message].resource.None? || db.messages[message].thread !in db.chats then NoMessage
    else
      var m := db.messages[message];
      if uid == 0 || (uid != m.sender && uid != Recipient(db, m)) then NoAccess
      else if m.status != Published then NotReady
      else Authorized(m.sender, Recipient(db, m), m.kind, m.resource.value)
  }

  /** Who gets which answer: a file that is published goes to the two users of its chat and to nobody
      else, one that is not is announced as such to them, and a message without a file does not exist. */
  lemma FreshAnswers(db: Db, message: int, uid: int)
    requires EventLog.LogInv(db)
    ensures var answer, known := Fresh(db, message, uid), message in db.messages && db.messages[message].kind in {PIC, FILE};
            && (answer == NoMessage <==> !known)
            && (known ==>
                  && db.messages[message].thread in db.chats
                  && var m, pair := db.messages[message], db.chats[db.messages[message].thread];
                  && (answer == NoAccess <==> uid !in {pair.0, pair.1})
                  && (answer == NotReady <==> uid in {pair.0, pair.1} && m.status != Published)
                  && (answer.Authorized? <==> uid in {pair.0, pair.1} && m.status == Published)
                  && (answer.Authorized? ==> {answer.sender, answer.recipient} == {pair.0, pair.1} && answer.sender == m.sender
                                             && answer.kind == m.kind && Some(answer.resource) == m.resource))
  {
    if message in db.messages {
      assert EventLog.MessageOk(db, message);
    }
  }

  predicate IsLive(session: Option<nat>, live: set<nat>) {
    session.Some? && session.value in live
  }

  function FromEntry(e: Entry): Answer {
    Authorized(e.sender, e.recipient, e.kind, e.resource)
  }

  /** The entry repeats a published row, and the session it remembers belongs to a party. */
  ghost predicate EntryOk(db: Db, uids: map<nat, int>, message: int, e: Entry) {
    && message in db.messages && db.messages[message].resource == Some(e.resource)
    && db.messages[message].thread in db.chats && db.messages[message].status == Published
    && e.sender == db.messages[message].sender && e.recipient == Recipient(db, db.messages[message])
    && e.kind == db.messages[message].kind
    && (e.first.Some? ==> e.first.value in uids && uids[e.first.value] != 0
                          && (uids[e.first.value] == e.sender || uids[e.first.value] == e.recipient))
  }

  ghost predicate CacheOk(db: Db, uids: map<nat, int>, cache: map<int, Entry>) {
    forall m :: m in cache ==> EntryOk(db, uids, m, cache[m])
  }

  /** Open files are those of published messages and show the stored content. */
  ghost predicate HandlesOk(db: Db, blobs: map<Digest, Bytes>, handles: map<int, Handle>) {
    forall m :: m in handles ==> ShowsContent(db, blobs, m, handles[m])
  }

  ghost predicate ShowsContent(db: Db, blobs: map<Digest, Bytes>, m: int, h: Handle) {
    && m in db.messages && db.messages[m].status == Published && db.messages[m].resource.Some?
    && db.messages[m].resource.value.sha in blobs && h.content == blobs[db.messages[m].resource.value.sha]
  }

  predicate IsStored(m: Message, blobs: map<Digest, Bytes>) {
    m.status == Published && m.resource.Some? && m.resource.value.sha in blobs
  }

  /** What the rest of the server may do between two calls: commit transactions, install or collect
      blobs that nothing published refers to, authenticate sessions. */
  ghost predicate WorldMoves(db: Db, blobs: map<Digest, Bytes>, uids: map<nat, int>, db': Db, blobs': map<Digest, Bytes>, uids': map<nat, int>) {
    && EventLog.Grows(db, db')
    && (forall m :: m in db.messages && IsStored(db.messages[m], blobs) ==>
          IsStored(db.messages[m], blobs') && blobs'[db.messages[m].resource.value.sha] == blobs[db.messages[m].resource.value.sha])
    && (forall x :: x in uids && uids[x] != 0 ==> x in uids' && uids'[x] == uids[x])
  }

  lemma WorldKeepsDownloads(db: Db, blobs: map<Digest, Bytes>, uids: map<nat, int>, db': Db, blobs': map<Digest, Bytes>, uids': map<nat, int>,
                            cache: map<int, Entry>, handles: map<int, Handle>)
    requires WorldMoves(db, blobs, uids, db', blobs', uids')
    requires CacheOk(db, uids, cache) && HandlesOk(db, blobs, handles)
    ensures CacheOk(db', uids', cache) && HandlesOk(db', blobs', handles)
  {
    forall m | m in cache ensures EntryOk(db', uids', m, cache[m]) {
      assert EventLog.MessageGrows(db.messages[m], db'.messages[m]);
    }
    forall m | m in handles ensures ShowsContent(db', blobs', m, handles[m]) {
      assert EventLog.MessageGrows(db.messages[m], db'.messages[m]);
    }
  }

  class DownloadWorker {
    const sha: Bytes -> Digest
    const db: Database
    var blobs: map<Digest, Bytes>
    var uids: map<nat, int>
    var cache: map<int, Entry>
    var handles: map<int, Handle>

    constructor (sha: Bytes -> Digest, db: Database)
      requires db.Valid()
      ensures this.sha == sha && this.db == db && Valid()
    {
      this.sha, this.db := sha, db;
      blobs, uids, cache, handles := map[], map[], map[], map[];
    }

    ghost predicate Valid()
      reads this, db
    {
      CacheValid() && HandlesValid()
    }

    ghost predicate CacheValid()
      reads this, db
    {
      db.Valid() && CacheOk(db.View(), uids, cache) && |cache| <= CACHE_LIMIT
    }

    ghost predicate HandlesValid()
      reads this, db
    {
      HandlesOk(db.View(), blobs, handles) && |handles.Keys| <= HANDLE_LIMIT
    }

    function UidOf(session: Option<nat>): int
      reads this
    {
      if session.Some? && session.value in uids then uids[session.value] else 0
    }

    /** ResolvePublished.  `live` are the sessions that still exist: a weak pointer to any other
        one is null. */
    method ResolvePublished(session: Option<nat>, message: int, live: set<nat>, dbFails: bool) returns (answer: Answer)
      requires CacheValid() && (session.Some? ==> session.value in live)
      modifies this`cache
      ensures CacheValid()
      ensures session.Some? && (!dbFails || message in old(cache)) ==> answer == Fresh(db.View(), message, UidOf(session))
      ensures session.Some? && dbFails && message !in old(cache) ==> answer == DbError
      ensures answer.Authorized? ==> PublishedRow(message, answer.resource)
      ensures answer.Authorized? && session.Some? ==>
                message in cache && FromEntry(cache[message]) == answer && cache[message].first == session
      ensures session.None? ==> (answer.Authorized? <==> message in old(cache) && !IsLive(old(cache)[message].first, live))
    {
      if message in cache {
        var e := cache[message];
        assert EntryOk(db.View(), uids, message, e);
        var cached := if IsLive(e.first, live) then e.first else None;
        if cached == session {
          return FromEntry(e);
        }
        var uid := UidOf(session);
        if uid != 0 && (uid == e.sender || uid == e.recipient) {
          cache := cache[message := e.(first := session)];
          return FromEntry(e);
        }
        return NoAccess;
      }
      if dbFails {
        return DbError;
      }
      var row := db.GetChatMsgById(message);
      if row.None? {
        return NoMessage;
      }
      var m, uid := row.value.0, UidOf(session);
      var recipient := OtherMember(db.chats[m.thread], m.sender);
      if uid == 0 || (uid != m.sender && uid != recipient) {
        return NoAccess;
      }
      if m.status != Published {
        return NotReady;
      }
      if |cache| >= CACHE_LIMIT {
        cache := map[];
      }
      var e := Entry(session, m.sender, recipient, m.kind, m.resource.value);
      cache := cache[message := e];
      return FromEntry(e);
    }

    method EvictIdleFileHandles(now: nat)
      modifies this`handles
      ensures forall m :: m in handles <==> m in old(handles) && now - old(handles)[m].lastUsed <= HANDLE_IDLE
      ensures forall m :: m in handles ==> handles[m] == old(handles)[m]
    {
      var todo: set<int> := handles.Keys;
      ghost var before := handles;
      while todo != {}
        invariant todo <= before.Keys
        invariant forall m :: m in handles <==> m in before && (m in todo || now - before[m].lastUsed <= HANDLE_IDLE)
        invariant forall m :: m in handles ==> handles[m] == before[m]
        decreases todo
      {
        assert exists m :: m in todo by { HasMember(todo); }
        var m :| m in todo;
        todo := todo - {m};
        if now - handles[m].lastUsed > HANDLE_IDLE {
          handles := handles - {m};
        }
      }
    }

    /** The entry other than `keep` that has been unused for longest. */
    method LeastRecent(keep: int) returns (victim: int)
      requires exists m :: m in handles && m != keep
      ensures victim in handles && victim != keep
      ensures forall m :: m in handles && m != keep ==> handles[victim].lastUsed <= handles[m].lastUsed
    {
      var todo: set<int> := handles.Keys - {keep};
      assert exists m :: m in todo by {
        var m :| m in handles && m != keep;
        assert m in todo;
      }
      victim :| victim in todo;
      todo := todo - {victim};
      while todo != {}
        invariant todo <= handles.Keys && victim in handles && victim != keep
        invariant forall m :: m in handles && m != keep && m !in todo ==> handles[victim].lastUsed <= handles[m].lastUsed
        decreases todo
      {
        assert exists m :: m in todo by { HasMember(todo); }
        var m :| m in todo;
        todo := todo - {m};
        if m != keep && handles[m].lastUsed < handles[victim].lastUsed {
          victim := m;
        }
      }
    }

    /** Opens the file, or refreshes the handle; a table over its limit loses its least recent entry. */
    method OpenHandle(message: int, digest: Digest, now: nat, openFails: bool) returns (ok: bool)
      requires |handles.Keys| <= HANDLE_LIMIT
      modifies this`handles
      ensures |handles.Keys| <= HANDLE_LIMIT
      ensures ok == (message in old(handles) || (!openFails && digest in blobs))
      ensures ok ==> message in handles && handles[message].lastUsed == now
      ensures ok ==> handles[message].content == if message in old(handles) then old(handles)[message].content else blobs[digest]
      ensures forall m :: m in handles && m != message ==> m in old(handles) && handles[m] == old(handles)[m]
      ensures !ok ==> handles == old(handles)
    {
      if message in handles {
        handles := handles[message := handles[message].(lastUsed := now)];
        return true;
      }
      if openFails || digest !in blobs {
        return false;
      }
      ghost var before := handles.Keys;
      handles := handles[message := Handle(now, blobs[digest])];
      assert handles.Keys == before + {message};
      if |handles.Keys| > HANDLE_LIMIT {
        assert exists m :: m in handles && m != message by {
          HasMember(before);
          var m :| m in before;
          assert m in handles;
        }
        var victim := LeastRecent(message);
        ghost var full := handles.Keys;
        handles := handles - {victim};
        assert handles.Keys == full - {victim};
      }
      return true;
    }

    /** HandleResourceChunkDown.  `readFails` is a read that returns short. */
    method HandleResourceChunkDown(session: Option<nat>, message: int, offset: nat, live: set<nat>, now: nat,
                                   dbFails: bool, openFails: bool, readFails: bool)
      returns (reply: ChunkReply)
      requires Valid() && (session.Some? ==> session.value in live)
      modifies this`cache, this`handles
      ensures Valid()
      ensures reply.error == Success && session.Some? ==>
                Fresh(db.View(), message, UidOf(session)).Authorized?
                && ChunkOf(Fresh(db.View(), message, UidOf(session)).resource, offset, reply)
      ensures session.Some? && !dbFails && !openFails && !readFails && Stored(message, session, offset) ==> reply.error == Success
      ensures session.Some? && !dbFails ==> RefusedAs(Fresh(db.View(), message, UidOf(session)), reply)
    {
      var answer := ResolvePublished(session, message, live, dbFails);
      if answer == NoAccess { return Refusal(ResourceForbidden, 0); }
      if answer == NotReady { return Refusal(ResourceNotReady, 0); }
      if answer == NoMessage { return Refusal(MsgIdErr, 0); }
      if answer == DbError { return Refusal(RPCFailed, 0); }
      reply := ReadChunk(message, answer, offset, now, openFails, readFails);
    }

    /** A request without access gets the error of its answer and not a byte. */
    predicate RefusedAs(answer: Answer, reply: ChunkReply) {
      && (answer == NoAccess ==> reply == Refusal(ResourceForbidden, 0))
      && (answer == NotReady ==> reply == Refusal(ResourceNotReady, 0))
      && (answer == NoMessage ==> reply == Refusal(MsgIdErr, 0))
    }

    /** The part after the permission check. */
    method ReadChunk(message: int, answer: Answer, offset: nat, now: nat, openFails: bool, readFails: bool)
      returns (reply: ChunkReply)
      requires HandlesValid() && answer.Authorized? && PublishedRow(message, answer.resource)
      modifies this`handles
      ensures HandlesValid()
      ensures reply.error == Success ==> ChunkOf(answer.resource, offset, reply)
      ensures !openFails && !readFails && IsWhole(answer.resource, blobs) && offset < answer.resource.size ==> reply.error == Success
    {
      var total := answer.resource.size;
      if offset >= total {
        return Refusal(FileOffsetInvalid, total);
      }
      EvictIdle(now);
      var ok := OpenHandle(message, answer.resource.sha, now, openFails);
      if !ok {
        return Refusal(FileNotExists, total);
      }
      var content := handles[message].content;
      var want := Min(Up.CHUNK, total - offset);
      if readFails || offset + want > |content| {
        ghost var keys := handles.Keys;
        handles := handles - {message};
        assert handles.Keys == keys - {message};
        return Refusal(FileReadFailed, total);
      }
      var raw := content[offset..offset + want];
      return ChunkReply(Success, raw, want, sha(raw), offset + want >= total, total);
    }

    method EvictIdle(now: nat)
      requires HandlesValid()
      modifies this`handles
      ensures HandlesValid()
    {
      ghost var before := handles.Keys;
      EvictIdleFileHandles(now);
      assert forall m :: m in handles.Keys ==> m in before;
      SubsetIsSmaller(handles.Keys, before);
    }

    /** The reply carries the next bytes of the stored file. */
    ghost predicate ChunkOf(resource: Resource, offset: nat, reply: ChunkReply)
      reads this
    {
      && resource.sha in blobs && reply.total == resource.size && offset + |reply.raw| <= |blobs[resource.sha]|
      && IsChunk(sha, blobs[resource.sha], resource.size, offset, reply)
    }

    ghost predicate PublishedRow(message: int, resource: Resource)
      reads db
    {
      message in db.messages && db.messages[message].status == Published && db.messages[message].resource == Some(resource)
    }

    /** The caller may read the message, and its content is in the store. */
    ghost predicate Stored(message: int, session: Option<nat>, offset: nat)
      reads this, db
    {
      var own := Fresh(db.View(), message, UidOf(session));
      && own.Authorized? && IsWhole(own.resource, blobs)
      && offset < own.resource.size
    }

    /** The content the session may read. */
    ghost function BlobOf(message: int, session: Option<nat>): Bytes
      requires Stored(message, session, 0)
      reads this, db
    {
      blobs[Fresh(db.View(), message, UidOf(session)).resource.sha]
    }

    method Fetch(session: nat, message: int, offset: nat, live: set<nat>, now: nat) returns (reply: ChunkReply)
      requires Valid() && session in live && Stored(message, Some(session), 0) && offset < |BlobOf(message, Some(session))|
      modifies this`cache, this`handles
      ensures Valid()
      ensures var blob := BlobOf(message, Some(session));
              && |reply.raw| == Min(Up.CHUNK, |blob| - offset)
              && reply.raw == blob[offset..offset + |reply.raw|]
              && reply.isLast == (offset + |reply.raw| == |blob|)
    {
      reply := HandleResourceChunkDown(Some(session), message, offset, live, now, false, false, false);
    }

    /** A client that starts at 0 and advances by `bytes` until `is_last`. */
    method DownloadAll(session: nat, message: int, live: set<nat>, now: nat) returns (content: Bytes, rounds: nat)
      requires Valid() && session in live && Stored(message, Some(session), 0)
      modifies this`cache, this`handles
      ensures Valid()
      ensures var blob := BlobOf(message, Some(session));
              content == blob && rounds == (|blob| + Up.CHUNK - 1) / Up.CHUNK
    {
      ghost var blob := BlobOf(message, Some(session));
      content, rounds := [], 0;
      while true
        invariant Valid() && Stored(message, Some(session), 0) && blob == BlobOf(message, Some(session))
        invariant |content| == rounds * Up.CHUNK < |blob| && content == blob[..|content|]
        decreases |blob| - |content|
      {
        var reply := Fetch(session, message, |content|, live, now);
        assert blob[..|content|] + blob[|content|..|content| + |reply.raw|] == blob[..|content| + |reply.raw|];
        content := content + reply.raw;
        rounds := rounds + 1;
        if reply.isLast {
          return;
        }
      }
    }
  }

  predicate IsWhole(resource: Resource, blobs: map<Digest, Bytes>) {
    resource.sha in blobs && |blobs[resource.sha]| == resource.size
  }

  function Refusal(error: ErrorCode, total: nat): ChunkReply {
    ChunkReply(error, [], 0, "", false, total)
  }

  /** The reply carries the next bytes of the file, at most one chunk, with their hash. */
  ghost predicate IsChunk(sha: Bytes -> Digest, content: Bytes, size: nat, offset: nat, reply: ChunkReply)
    requires offset + |reply.raw| <= |content|
  {
    && offset < size
    && |reply.raw| == reply.bytes == Min(Up.CHUNK, size - offset)
    && reply.raw == content[offset..offset + |reply.raw|]
    && reply.hash == sha(reply.raw)
    && reply.isLast == (offset + reply.bytes == size)
  }

  lemma SubsetIsSmaller(a: set<int>, b: set<int>)
    requires a <= b
    ensures |a| <= |b|
  {
    assert b == a + (b - a);
  }
}
