/** A run of CasProtocol in which published content is lost: the process dies between the link and
    the unlink of one upload, another message publishes the same blob, and reloading the first
    upload truncates the file that both names share. */
module CasExample {
  import opened Basics
  import opened UploadFile
  import opened Store
  import opened CasProtocol
  import Up = UploadRuns

  /** A run as a list that grows at its end. */
  datatype Trace = First(start: State) | Then(before: Trace, action: Action, state: State)

  function Last(t: Trace): State {
    match t
    case First(s) => s
    case Then(_, _, s) => s
  }

  ghost predicate IsTrace(sha: Bytes -> Digest, t: Trace) {
    match t
    case First(s) => Init(s)
    case Then(before, action, s) => IsTrace(sha, before) && Step(sha, Last(before), action, s)
  }

  ghost predicate Reachable(sha: Bytes -> Digest, s: State) {
    exists t :: IsTrace(sha, t) && Last(t) == s
  }

  /** Such a list is a run. */
  lemma {:induction false} TraceIsRun(sha: Bytes -> Digest, t: Trace) returns (states: seq<State>, actions: seq<Action>)
    requires IsTrace(sha, t)
    ensures IsRun(sha, states, actions) && states[|states| - 1] == Last(t)
  {
    match t
    case First(s) =>
      states, actions := [s], [];
    case Then(before, action, s) =>
      states, actions := TraceIsRun(sha, before);
      states, actions := states + [s], actions + [action];
  }

  lemma Reach(sha: Bytes -> Digest, s: State, action: Action, s': State)
    requires Reachable(sha, s) && Step(sha, s, action, s')
    ensures Reachable(sha, s')
  {
    var t :| IsTrace(sha, t) && Last(t) == s;
    assert IsTrace(sha, Then(t, action, s'));
  }

  const FILE_BYTES: Bytes := [7]

  // ---- The tables --------------------------------------------------------------------------------------------

  function Request(client: string, digest: Digest): SendRequest {
    SendRequest(1, 1, client, FILE, "", Some(Resource("f", 1, digest, "m")), 0)
  }

  function Row(client: string, digest: Digest): Message {
    NewMessage(Request(client, digest), Pending)
  }

  /** Users 1 and 2, their chat, and the first `n` of two messages with the same content. */
  function Tables(n: nat, digest: Digest): Db {
    Db(map[1 := 0, 2 := 0], map[1 := (1, 2)],
       if n == 0 then map[] else if n == 1 then map[1 := Row("a", digest)] else map[1 := Row("a", digest), 2 := Row("b", digest)],
       map[], {}, map[])
  }

  function Start(db: Db): State {
    State(db, map[], {}, map[], {}, [Idle, Idle, Idle, Idle], GcIdle, Free)
  }

  lemma ChatIsCreated(digest: Digest)
    ensures Transaction(EmptyDb(), Register(1), EmptyDb().(users := map[1 := 0]))
    ensures Transaction(EmptyDb().(users := map[1 := 0]), Register(2), EmptyDb().(users := map[1 := 0, 2 := 0]))
    ensures Transaction(EmptyDb().(users := map[1 := 0, 2 := 0]), CreateChat(1, 2, 1), Tables(0, digest))
  {
    assert map[1 := 0][2 := 0] == map[1 := 0, 2 := 0];
    assert map[][1 := (1, 2)] == map[1 := (1, 2)];
  }

  lemma MessagesAreStored(digest: Digest)
    ensures Transaction(Tables(0, digest), Send(Request("a", digest), 1), Tables(1, digest))
    ensures Transaction(Tables(1, digest), Send(Request("b", digest), 2), Tables(2, digest))
  {
    assert forall id :: !HasKey(Tables(0, digest), id, 1, "a");
    assert MessageByKey(Tables(0, digest), 1, "a") == None;
    assert forall id :: !HasKey(Tables(1, digest), id, 1, "b");
    assert MessageByKey(Tables(1, digest), 1, "b") == None;
    assert map[1 := Row("a", digest)][2 := Row("b", digest)] == map[1 := Row("a", digest), 2 := Row("b", digest)];
  }

  lemma TablesAreReachable(sha: Bytes -> Digest, digest: Digest)
    ensures Reachable(sha, Start(Tables(2, digest)))
  {
    assert IsTrace(sha, First(Start(EmptyDb())));
    assert Reachable(sha, Start(EmptyDb()));
    ChatIsCreated(digest);
    MessagesAreStored(digest);
    var db1, db2 := EmptyDb().(users := map[1 := 0]), EmptyDb().(users := map[1 := 0, 2 := 0]);
    Reach(sha, Start(EmptyDb()), Database(Register(1)), Start(db1));
    Reach(sha, Start(db1), Database(Register(2)), Start(db2));
    Reach(sha, Start(db2), Database(CreateChat(1, 2, 1)), Start(Tables(0, digest)));
    Reach(sha, Start(Tables(0, digest)), Database(Send(Request("a", digest), 1)), Start(Tables(1, digest)));
    Reach(sha, Start(Tables(1, digest)), Database(Send(Request("b", digest), 2)), Start(Tables(2, digest)));
  }

  // ---- One upload --------------------------------------------------------------------------------------------

  const NO_IO := ChunkIo(false, false, false, [], false)

  function Loaded(): Up.Upload {
    Up.Upload(None, Some(Up.Session(0, true, [], None)), [])
  }

  function Received(): Up.Upload {
    Up.Upload(Some(FILE_BYTES), Some(Up.Session(1, true, FILE_BYTES, None)), FILE_BYTES)
  }

  function Complete(digest: Digest): Up.Upload {
    Received().(session := Some(Up.Session(1, true, FILE_BYTES, Some(digest))))
  }

  lemma OneByteArrives(sha: Bytes -> Digest, digest: Digest)
    requires sha(FILE_BYTES) == digest && IsSha256Hex(digest)
    ensures Up.Next(sha, 1, Up.FreshUpload(), Up.Load(true), Loaded())
    ensures Up.Next(sha, 1, Loaded(), Up.Chunk(0, FILE_BYTES, digest, NO_IO, false, Success), Received())
    ensures Up.Next(sha, 1, Received(), Up.Finalize(false, false), Complete(digest))
  {
    assert OnGrid(1, Up.CHUNK, 0, FILE_BYTES, 0);
    assert Overlay([], 0, FILE_BYTES) == FILE_BYTES;
    assert [] + FILE_BYTES == FILE_BYTES;
  }

  /** Worker m is idle and has the upload `u` of message m on its disk. */
  ghost predicate IsIdleAt(s: State, m: nat, digest: Digest, u: Up.Upload) {
    && m in {1, 2} && s.db == Tables(2, digest) && At(s, m, Idle) && m !in s.linked && s.challenges == {}
    && UploadOf(s, m) == u
  }

  function With(s: State, m: nat, u: Up.Upload): State {
    s.(uploads := s.uploads[m := u])
  }

  lemma LocalReaches(sha: Bytes -> Digest, s: State, m: nat, digest: Digest, step: Up.Step, u: Up.Upload, u': Up.Upload)
    requires Reachable(sha, s) && IsIdleAt(s, m, digest, u) && (step.Load? || step.Chunk?) && Up.Next(sha, 1, u, step, u')
    ensures Reachable(sha, With(s, m, u')) && IsIdleAt(With(s, m, u'), m, digest, u')
  {
    Reach(sha, s, Local(m, m, step), With(s, m, u'));
  }

  lemma HashReaches(sha: Bytes -> Digest, s: State, m: nat, digest: Digest)
    requires Reachable(sha, s) && IsIdleAt(s, m, digest, Received()) && Up.Next(sha, 1, Received(), Up.Finalize(false, false), Complete(digest))
    ensures Reachable(sha, With(s, m, Complete(digest)).(workers := s.workers[m := Hashed(m)]))
  {
    Reach(sha, s, Hash(m, m, Up.Finalize(false, false)), With(s, m, Complete(digest)).(workers := s.workers[m := Hashed(m)]));
  }

  /** An idle worker takes the whole file of message m and hashes it. */
  lemma UploadIsHashed(sha: Bytes -> Digest, s: State, m: nat, digest: Digest)
    requires Reachable(sha, s) && sha(FILE_BYTES) == digest && IsSha256Hex(digest)
    requires IsIdleAt(s, m, digest, Up.FreshUpload())
    ensures Reachable(sha, s.(uploads := s.uploads[m := Complete(digest)], workers := s.workers[m := Hashed(m)]))
  {
    SessionIsLoaded(sha, s, m, digest);
    ChunkIsHashed(sha, With(s, m, Loaded()), m, digest);
    assert s.uploads[m := Loaded()][m := Complete(digest)] == s.uploads[m := Complete(digest)];
  }

  lemma SessionIsLoaded(sha: Bytes -> Digest, s: State, m: nat, digest: Digest)
    requires Reachable(sha, s) && sha(FILE_BYTES) == digest && IsSha256Hex(digest)
    requires IsIdleAt(s, m, digest, Up.FreshUpload())
    ensures Reachable(sha, With(s, m, Loaded())) && IsIdleAt(With(s, m, Loaded()), m, digest, Loaded())
  {
    OneByteArrives(sha, digest);
    LocalReaches(sha, s, m, digest, Up.Load(true), Up.FreshUpload(), Loaded());
  }

  lemma ChunkIsHashed(sha: Bytes -> Digest, s: State, m: nat, digest: Digest)
    requires Reachable(sha, s) && sha(FILE_BYTES) == digest && IsSha256Hex(digest)
    requires IsIdleAt(s, m, digest, Loaded())
    ensures Reachable(sha, s.(uploads := s.uploads[m := Complete(digest)], workers := s.workers[m := Hashed(m)]))
  {
    OneByteArrives(sha, digest);
    LocalReaches(sha, s, m, digest, Up.Chunk(0, FILE_BYTES, digest, NO_IO, false, Success), Loaded(), Received());
    HashReaches(sha, With(s, m, Received()), m, digest);
    assert s.uploads[m := Received()][m := Complete(digest)] == s.uploads[m := Complete(digest)];
  }

  // ---- The crash between link and unlink -----------------------------------------------------------------------

  /** The blob of message 1 is installed and still shares its file with the part; the process has been
      restarted. */
  function Restarted(digest: Digest): State {
    Start(Tables(2, digest)).(blobs := map[digest := FILE_BYTES], linked := {1},
                              uploads := map[1 := LEFT_BEHIND])
  }

  /** The blob is linked, the part's own name not yet unlinked. */
  function LinkedState(digest: Digest): State {
    Start(Tables(2, digest)).(blobs := map[digest := FILE_BYTES], linked := {1}, uploads := map[1 := Complete(digest)],
                              workers := [Idle, Linked(1), Idle, Idle], lock := ByWorker(1))
  }

  function LockedState(digest: Digest): State {
    Start(Tables(2, digest)).(uploads := map[1 := Complete(digest)], workers := [Idle, Locked(1), Idle, Idle], lock := ByWorker(1))
  }

  lemma LockReaches(sha: Bytes -> Digest, digest: Digest)
    requires Reachable(sha, Start(Tables(2, digest)).(uploads := map[1 := Complete(digest)], workers := [Idle, Hashed(1), Idle, Idle]))
    ensures Reachable(sha, LockedState(digest))
  {
    var s := Start(Tables(2, digest)).(uploads := map[1 := Complete(digest)], workers := [Idle, Hashed(1), Idle, Idle]);
    Reach(sha, s, Install(1, TakeLock), LockedState(digest));
  }

  lemma LinkReaches(sha: Bytes -> Digest, digest: Digest)
    requires Reachable(sha, LockedState(digest))
    ensures Reachable(sha, LinkedState(digest))
  {
    Reach(sha, LockedState(digest), Install(1, Link), LinkedState(digest));
  }

  lemma CrashReaches(sha: Bytes -> Digest, digest: Digest)
    requires Reachable(sha, LinkedState(digest))
    ensures Reachable(sha, Restarted(digest))
  {
    assert seq(4, _ => Idle) == [Idle, Idle, Idle, Idle];
    Reach(sha, LinkedState(digest), ProcessCrash, Restarted(digest));
  }

  lemma CrashLeavesALink(sha: Bytes -> Digest, digest: Digest)
    requires sha(FILE_BYTES) == digest && IsSha256Hex(digest)
    ensures Reachable(sha, Restarted(digest))
  {
    TablesAreReachable(sha, digest);
    var s := Start(Tables(2, digest));
    UploadIsHashed(sha, s, 1, digest);
    var hashed := s.(uploads := map[1 := Complete(digest)], workers := [Idle, Hashed(1), Idle, Idle]);
    assert hashed == s.(uploads := s.uploads[1 := Complete(digest)], workers := s.workers[1 := Hashed(1)]);
    LockReaches(sha, digest);
    LinkReaches(sha, digest);
    CrashReaches(sha, digest);
  }

  // ---- The other message is published --------------------------------------------------------------------------

  function PublishedTables(digest: Digest): Db {
    Publish2(Tables(2, digest))
  }

  function Publish2(db: Db): Db
    requires 2 in db.messages && 2 in db.users
  {
    Append(SetStatus(db, 2, Published), 2, MessageEvent(FILE, 2))
  }

  lemma PublicationIs(digest: Digest)
    ensures Publish(Tables(2, digest), 2, 1).0 == PublishedTables(digest)
  {
    assert Recipient(Tables(2, digest), Row("b", digest)) == 2;
  }

  /** Message 2 is published with the blob that message 1 left behind. */
  function TwinPublished(digest: Digest): State {
    Restarted(digest).(db := PublishedTables(digest),
                       uploads := map[1 := LEFT_BEHIND, 2 := Up.Upload(None, None, FILE_BYTES)])
  }

  const LEFT_BEHIND := Up.Upload(Some(FILE_BYTES), None, FILE_BYTES)

  /** Message 2's worker has found the blob and trusts it. */
  function TwinInstalled(digest: Digest): State {
    Restarted(digest).(uploads := map[1 := LEFT_BEHIND, 2 := Complete(digest).(part := None)],
                       workers := [Idle, Idle, Installed(2), Idle], lock := ByWorker(2))
  }

  lemma TwinIsInstalled(sha: Bytes -> Digest, digest: Digest)
    requires sha(FILE_BYTES) == digest && IsSha256Hex(digest)
    ensures Reachable(sha, TwinInstalled(digest))
  {
    CrashLeavesALink(sha, digest);
    var r := Restarted(digest);
    UploadIsHashed(sha, r, 2, digest);
    var s1 := r.(uploads := map[1 := LEFT_BEHIND, 2 := Complete(digest)], workers := [Idle, Idle, Hashed(2), Idle]);
    assert s1 == r.(uploads := r.uploads[2 := Complete(digest)], workers := r.workers[2 := Hashed(2)]);
    var s2 := s1.(workers := [Idle, Idle, Locked(2), Idle], lock := ByWorker(2));
    var s3 := s2.(workers := [Idle, Idle, Exists(2), Idle]);
    Reach(sha, s1, Install(2, TakeLock), s2);
    Reach(sha, s2, Install(2, LinkExists), s3);
    DedupReaches(sha, s3, digest);
  }

  lemma DedupReaches(sha: Bytes -> Digest, s: State, digest: Digest)
    requires Reachable(sha, s) && sha(FILE_BYTES) == digest
    requires s == TwinInstalled(digest).(uploads := map[1 := LEFT_BEHIND, 2 := Complete(digest)], workers := [Idle, Idle, Exists(2), Idle])
    ensures Reachable(sha, TwinInstalled(digest))
  {
    assert s.uploads[2 := Complete(digest).(part := None)] == TwinInstalled(digest).uploads;
    assert Up.Next(sha, 1, Complete(digest), Up.Discard, Complete(digest).(part := None));
    Reach(sha, s, Install(2, Dedup(true, true)), TwinInstalled(digest));
  }

  lemma LookupReaches(sha: Bytes -> Digest, digest: Digest)
    requires Reachable(sha, TwinInstalled(digest))
    ensures Reachable(sha, TwinInstalled(digest).(workers := [Idle, Idle, Looked(2, 1), Idle]))
  {
    Reach(sha, TwinInstalled(digest), Finish(2, Lookup(true, false)), TwinInstalled(digest).(workers := [Idle, Idle, Looked(2, 1), Idle]));
  }

  lemma PublishReaches(sha: Bytes -> Digest, digest: Digest)
    requires Reachable(sha, TwinInstalled(digest).(workers := [Idle, Idle, Looked(2, 1), Idle]))
    ensures Reachable(sha, TwinPublished(digest).(workers := [Idle, Idle, Leaving(2), Idle], lock := ByWorker(2)))
  {
    var s := TwinInstalled(digest).(workers := [Idle, Idle, Looked(2, 1), Idle]);
    var s' := TwinPublished(digest).(workers := [Idle, Idle, Leaving(2), Idle], lock := ByWorker(2));
    PublicationIs(digest);
    assert s.uploads[2 := Dropped(UploadOf(s, 2))] == s'.uploads;
    Reach(sha, s, Finish(2, PublishRow(true, true)), s');
  }

  lemma TwinIsPublished(sha: Bytes -> Digest, digest: Digest)
    requires sha(FILE_BYTES) == digest && IsSha256Hex(digest)
    ensures Reachable(sha, TwinPublished(digest))
  {
    TwinIsInstalled(sha, digest);
    LookupReaches(sha, digest);
    PublishReaches(sha, digest);
    Reach(sha, TwinPublished(digest).(workers := [Idle, Idle, Leaving(2), Idle], lock := ByWorker(2)), Finish(2, ReleaseLock), TwinPublished(digest));
  }

  // ---- The reload ----------------------------------------------------------------------------------------------

  /** Rebuilding the session of message 1 empties the blob of the published message 2. */
  lemma ReloadDestroysPublishedContent(sha: Bytes -> Digest) returns (states: seq<State>, actions: seq<Action>)
    requires IsSha256Hex(sha(FILE_BYTES))
    ensures IsRun(sha, states, actions)
    ensures var s := states[|states| - 1];
            IsPublished(s.db, 2) && Sha(s.db, 2) in s.blobs && |s.blobs[Sha(s.db, 2)]| < Size(s.db, 2)
  {
    var digest := sha(FILE_BYTES);
    TwinIsPublished(sha, digest);
    ReloadReaches(sha, digest);
    var s := Emptied(digest);
    var t :| IsTrace(sha, t) && Last(t) == s;
    states, actions := TraceIsRun(sha, t);
    assert IsPublished(s.db, 2) && Sha(s.db, 2) == digest;
  }

  function Emptied(digest: Digest): State {
    TwinPublished(digest).(blobs := map[digest := []],
                           uploads := TwinPublished(digest).uploads[1 := Up.Upload(Some([]), Some(Up.Session(0, true, [], None)), [])])
  }

  lemma ReloadReaches(sha: Bytes -> Digest, digest: Digest)
    requires Reachable(sha, TwinPublished(digest))
    ensures Reachable(sha, Emptied(digest))
  {
    var s := TwinPublished(digest);
    assert Up.Next(sha, 1, s.uploads[1], Up.Load(true), Emptied(digest).uploads[1]);
    assert s.blobs[digest := []] == Emptied(digest).blobs;
    Reach(sha, s, Local(1, 1, Up.Load(true)), Emptied(digest));
  }
}
