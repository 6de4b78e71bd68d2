/** What CasProtocol achieves when nothing fails: every run can be continued, without a fault, until a
    pending upload is published, a pending message is published by proof, or an orphan is collected. */
module CasProgress {
  import opened Basics
  import opened UploadFile
  import opened Store
  import EventLog
  import opened CasProtocol
  import CasLinks
  import Example = CasExample
  import Completion
  import Up = UploadRuns

  const NO_IO := ChunkIo(false, false, false, [], false)

  /** Steps in which every call succeeds and says so. */
  predicate FaultFree(action: Action) {
    match action
    case Local(_, _, step) => step == Up.Load(true) || (step.Chunk? && step.io == NO_IO && !step.updateFails)
    case Hash(_, _, step) => step == Up.Finalize(false, false)
    case Install(_, step) => step.TakeLock? || step.Link? || step.LinkExists? || step == Unlink(true, true) || step == Dedup(true, true)
    case Finish(_, step) => step == Lookup(true, false) || step == PublishRow(true, true) || step.ReleaseLock? || IsFullCopy(step)
    case Proof(_, step) => step.Challenge? || step.BeginProof? || step.TakeProofLock? || step == ProofPublish(true, true)
    case Clean(step) => step.GcTakeLock? || step.GcQuery? || step == GcUnlink(true)
    case _ => false
  }

  /** The blob is copied back in full. */
  predicate IsFullCopy(step: FinishStep) {
    step.Restore? && step.repair.Some? && step.repair.value.CopyBack? && step.repair.value.copied == |step.repair.value.source|
  }

  /** A continuation of a run, as a list that grows at its end. */
  datatype Path = Here | Onward(before: Path, action: Action, state: State)

  function End(s: State, p: Path): State {
    match p
    case Here => s
    case Onward(_, _, t) => t
  }

  ghost predicate IsPath(sha: Bytes -> Digest, s: State, p: Path) {
    match p
    case Here => true
    case Onward(before, action, t) => IsPath(sha, s, before) && FaultFree(action) && Step(sha, End(s, before), action, t)
  }

  /** The state t follows s by fault-free steps. */
  ghost predicate LeadsTo(sha: Bytes -> Digest, s: State, t: State) {
    exists p :: IsPath(sha, s, p) && End(s, p) == t
  }

  lemma Stay(sha: Bytes -> Digest, s: State)
    ensures LeadsTo(sha, s, s)
  {
    assert IsPath(sha, s, Here) && End(s, Here) == s;
  }

  lemma Then(sha: Bytes -> Digest, s: State, t: State, action: Action, t': State)
    requires LeadsTo(sha, s, t) && FaultFree(action) && Step(sha, t, action, t')
    ensures LeadsTo(sha, s, t')
  {
    var p :| IsPath(sha, s, p) && End(s, p) == t;
    assert IsPath(sha, s, Onward(p, action, t'));
  }

  /** `states'` goes on where `states` ends, and nothing fails on the way. */
  ghost predicate Continues(sha: Bytes -> Digest, states: seq<State>, actions: seq<Action>, states': seq<State>, actions': seq<Action>) {
    && IsRun(sha, states', actions') && states <= states' && actions <= actions'
    && forall i :: |actions| <= i < |actions'| ==> FaultFree(actions'[i])
  }

  lemma {:induction false} PathContinues(sha: Bytes -> Digest, states: seq<State>, actions: seq<Action>, p: Path)
    returns (states': seq<State>, actions': seq<Action>)
    requires IsRun(sha, states, actions) && IsPath(sha, states[|states| - 1], p)
    ensures Continues(sha, states, actions, states', actions') && states'[|states'| - 1] == End(states[|states| - 1], p)
  {
    match p
    case Here =>
      states', actions' := states, actions;
    case Onward(before, action, t) =>
      states', actions' := PathContinues(sha, states, actions, before);
      states', actions' := states' + [t], actions' + [action];
  }

  // ---- One upload ----------------------------------------------------------------------------------------

  /** The first k bytes of `file` are on disk and confirmed; only the whole file may have been hashed. */
  ghost predicate Holds(sha: Bytes -> Digest, u: Up.Upload, file: Bytes, k: nat) {
    && k <= |file| && u.session.Some? && u.session.value.received == k
    && (u.session.value.finalHex.Some? ==> k == |file| && u.session.value.finalHex.value == sha(file))
    && (u.part.Some? ==> u.part.value == file[..k]) && (k > 0 ==> u.part.Some?)
    && (u.session.value.hashValid ==> u.session.value.absorbed == file[..k])
  }

  ghost predicate Advances(sha: Bytes -> Digest, total: nat, u: Up.Upload, step: Up.Step, u': Up.Upload) {
    forall v :: v == u' ==> Up.Next(sha, total, u, step, v)
  }

  /** What an evicted upload of `file` may have left behind: a prefix of any length. */
  ghost predicate LeftBehind(u: Up.Upload, file: Bytes) {
    u.session.None? && (u.part.Some? ==> u.part.value <= file)
  }

  /** An upload of `file` that is evicted, under way or complete. */
  ghost predicate OnItsWay(sha: Bytes -> Digest, u: Up.Upload, file: Bytes) {
    if u.session.None? then LeftBehind(u, file)
    else Holds(sha, u, file, u.session.value.received) && Up.GridPoint(u.session.value.received, |file|)
  }

  lemma SessionLoads(sha: Bytes -> Digest, u: Up.Upload, file: Bytes) returns (u': Up.Upload, k: nat)
    requires LeftBehind(u, file)
    ensures Advances(sha, |file|, u, Up.Load(true), u') && Up.GridPoint(k, |file|) && Holds(sha, u', file, k)
  {
    k := ResumeOffset(FileLength(u.part), |file|, Up.CHUNK);
    ResumeOffsetBounds(FileLength(u.part), |file|, Up.CHUNK);
    u' := Up.Upload(Up.Recovered(u.part, |file|), Some(Up.Session(k, k == 0, [], None)), u.acked[..Min(k, |u.acked|)]);
    if u.part.Some? {
      assert u.part.value == file[..|u.part.value|];
      assert file[..|u.part.value|][..k] == file[..k];
    }
  }

  /** The chunk of `file` at k, without faults. */
  function ChunkAt(sha: Bytes -> Digest, file: Bytes, k: nat): Up.Step
    requires k < |file|
  {
    var data := file[k..Min(k + Up.CHUNK, |file|)];
    Up.Chunk(k, data, sha(data), NO_IO, false, Success)
  }

  lemma NextBoundary(k: nat, total: nat) returns (k': nat)
    requires k < total && Up.GridPoint(k, total)
    ensures k' == Min(k + Up.CHUNK, total) && k < k' && Up.GridPoint(k', total)
  {
    k' := Min(k + Up.CHUNK, total);
  }

  lemma ChunkArrives(sha: Bytes -> Digest, u: Up.Upload, file: Bytes, k: nat) returns (u': Up.Upload)
    requires HexDigests(sha) && k < |file| && Up.GridPoint(k, |file|) && Holds(sha, u, file, k)
    ensures Advances(sha, |file|, u, ChunkAt(sha, file, k), u') && Holds(sha, u', file, Min(k + Up.CHUNK, |file|))
  {
    var step, k' := ChunkAt(sha, file, k), Min(k + Up.CHUNK, |file|);
    var disk := if u.part.Some? then u.part.value else [];
    assert OnGrid(|file|, Up.CHUNK, k, step.data, k);
    assert file[..k] + step.data == file[..k'];
    assert Overlay(disk, k, step.data) == file[..k'];
    u' := Up.Upload(Some(file[..k']), Some(Up.AfterChunk(u.session.value, step, k')), Up.AckedAfterChunk(u.acked, step, k'));
  }

  /** The upload after the whole-file hash. */
  function Hashed(u: Up.Upload, digest: Digest): Up.Upload
    requires u.session.Some?
  {
    u.(session := Some(u.session.value.(finalHex := Some(digest))))
  }

  lemma FileHashes(sha: Bytes -> Digest, u: Up.Upload, file: Bytes)
    requires file != [] && Holds(sha, u, file, |file|)
    ensures Advances(sha, |file|, u, Up.Finalize(false, false), Hashed(u, sha(file)))
  {
    assert file[..|file|] == file;
  }

  // ---- The worker ----------------------------------------------------------------------------------------

  /** Message m is a pending row for `file`. */
  ghost predicate Declares(sha: Bytes -> Digest, db: Db, m: int, file: Bytes) {
    IsResource(db, m) && db.messages[m].status == Pending && Size(db, m) == |file| && Sha(db, m) == sha(file)
  }

  /** Its worker has nothing else to do, and its part is a file of its own. */
  ghost predicate Awaits(sha: Bytes -> Digest, s: State, m: int, file: Bytes) {
    Declares(sha, s.db, m, file) && At(s, WorkerOf(m), Idle) && m !in s.linked
  }

  function WorkerOf(m: int): nat {
    m % FILE_WORKERS
  }

  function With(s: State, m: int, u: Up.Upload): State {
    s.(uploads := s.uploads[m := u])
  }

  /** What an upload changes before it is hashed: its own files, and its outstanding challenge. */
  ghost predicate OnlyUpload(s: State, t: State, m: int) {
    && t == s.(uploads := t.uploads, challenges := t.challenges)
    && m in t.uploads && t.uploads == s.uploads[m := t.uploads[m]]
  }

  lemma LocalLeads(sha: Bytes -> Digest, s: State, t: State, m: int, file: Bytes, step: Up.Step, u': Up.Upload) returns (t': State)
    requires Awaits(sha, s, m, file) && LeadsTo(sha, s, t) && (t == s || OnlyUpload(s, t, m))
    requires FaultFree(Local(WorkerOf(m), m, step)) && Advances(sha, |file|, UploadOf(t, m), step, u')
    ensures LeadsTo(sha, s, t') && OnlyUpload(s, t', m) && UploadOf(t', m) == u'
  {
    t' := With(t, m, u').(challenges := if step.Load? then t.challenges else t.challenges - {m});
    assert t'.uploads == s.uploads[m := u'];
    assert Uploads(sha, t, m, step, t'.uploads);
    Then(sha, s, t, Local(WorkerOf(m), m, step), t');
  }

  /** Chunk by chunk to the end of the file. */
  lemma {:induction false} ChunksLead(sha: Bytes -> Digest, s: State, t: State, m: int, file: Bytes, k: nat) returns (t': State)
    requires HexDigests(sha) && Awaits(sha, s, m, file) && LeadsTo(sha, s, t) && OnlyUpload(s, t, m)
    requires Holds(sha, UploadOf(t, m), file, k) && Up.GridPoint(k, |file|)
    ensures LeadsTo(sha, s, t') && OnlyUpload(s, t', m) && Holds(sha, UploadOf(t', m), file, |file|)
    decreases |file| - k
  {
    if k == |file| {
      t' := t;
    } else {
      var t1, k1 := ChunkLeads(sha, s, t, m, file, k);
      t' := ChunksLead(sha, s, t1, m, file, k1);
    }
  }

  lemma ChunkLeads(sha: Bytes -> Digest, s: State, t: State, m: int, file: Bytes, k: nat) returns (t': State, k': nat)
    requires HexDigests(sha) && Awaits(sha, s, m, file) && LeadsTo(sha, s, t) && OnlyUpload(s, t, m)
    requires Holds(sha, UploadOf(t, m), file, k) && k < |file| && Up.GridPoint(k, |file|)
    ensures LeadsTo(sha, s, t') && OnlyUpload(s, t', m) && Holds(sha, UploadOf(t', m), file, k')
    ensures k < k' <= |file| && Up.GridPoint(k', |file|)
  {
    k' := NextBoundary(k, |file|);
    var u' := ChunkArrives(sha, UploadOf(t, m), file, k);
    t' := LocalLeads(sha, s, t, m, file, ChunkAt(sha, file, k), u');
  }

  /** The worker stands at `pc` with the whole file of message m hashed; nothing else has changed but
      the mutex. */
  ghost predicate Reached(s: State, t: State, m: int, pc: Pc) {
    && WorkerOf(m) < |s.workers|
    && t == s.(uploads := t.uploads, challenges := t.challenges, blobs := t.blobs, linked := t.linked, lock := t.lock,
               workers := s.workers[WorkerOf(m) := pc])
    && m in t.uploads && t.uploads == s.uploads[m := t.uploads[m]]
  }

  lemma HashLeads(sha: Bytes -> Digest, s: State, t: State, m: int, file: Bytes) returns (t': State)
    requires Awaits(sha, s, m, file) && file != [] && LeadsTo(sha, s, t) && OnlyUpload(s, t, m) && Holds(sha, UploadOf(t, m), file, |file|)
    ensures LeadsTo(sha, s, t') && Reached(s, t', m, Pc.Hashed(m)) && t'.blobs == s.blobs && t'.linked == s.linked && t'.lock == s.lock
    ensures UploadOf(t', m).part == Some(file)
  {
    var u' := Hashed(UploadOf(t, m), sha(file));
    FileHashes(sha, UploadOf(t, m), file);
    t' := With(t, m, u').(workers := s.workers[WorkerOf(m) := Pc.Hashed(m)]);
    assert t'.uploads == s.uploads[m := u'];
    assert file[..|file|] == file;
    Then(sha, s, t, Hash(WorkerOf(m), m, Up.Finalize(false, false)), t');
  }

  lemma UploadLeadsToHash(sha: Bytes -> Digest, s: State, m: int, file: Bytes) returns (t: State)
    requires HexDigests(sha) && Awaits(sha, s, m, file) && file != [] && OnItsWay(sha, UploadOf(s, m), file)
    ensures LeadsTo(sha, s, t) && Reached(s, t, m, Pc.Hashed(m)) && t.blobs == s.blobs && t.linked == s.linked && t.lock == s.lock
    ensures UploadOf(t, m).part == Some(file)
  {
    var t1 := SessionLeads(sha, s, m, file);
    var t2 := ChunksLead(sha, s, t1, m, file, UploadOf(t1, m).session.value.received);
    t := HashLeads(sha, s, t2, m, file);
  }

  /** A session, live or rebuilt. */
  lemma SessionLeads(sha: Bytes -> Digest, s: State, m: int, file: Bytes) returns (t: State)
    requires Awaits(sha, s, m, file) && OnItsWay(sha, UploadOf(s, m), file)
    ensures LeadsTo(sha, s, t) && OnlyUpload(s, t, m) && UploadOf(t, m).session.Some?
    ensures var k := UploadOf(t, m).session.value.received; Holds(sha, UploadOf(t, m), file, k) && Up.GridPoint(k, |file|)
  {
    Stay(sha, s);
    if UploadOf(s, m).session.None? {
      var u, k := SessionLoads(sha, UploadOf(s, m), file);
      t := LocalLeads(sha, s, s, m, file, Up.Load(true), u);
    } else {
      t := s;
      assert s.uploads == s.uploads[m := s.uploads[m]];
    }
  }

  // ---- Publication ---------------------------------------------------------------------------------------

  lemma LockLeads(sha: Bytes -> Digest, s: State, t: State, m: int) returns (t': State)
    requires LeadsTo(sha, s, t) && Reached(s, t, m, Pc.Hashed(m)) && IsResource(s.db, m) && t.lock == Free
    ensures LeadsTo(sha, s, t') && Reached(s, t', m, Locked(m)) && t'.lock == ByWorker(WorkerOf(m))
    ensures t'.uploads == t.uploads && t'.blobs == t.blobs && t'.linked == t.linked
  {
    t' := Go(t, WorkerOf(m), Locked(m)).(lock := ByWorker(WorkerOf(m)));
    Then(sha, s, t, Install(WorkerOf(m), TakeLock), t');
  }

  lemma LinkLeads(sha: Bytes -> Digest, s: State, t: State, m: int, file: Bytes) returns (t': State)
    requires LeadsTo(sha, s, t) && Reached(s, t, m, Locked(m)) && IsResource(s.db, m)
    requires UploadOf(t, m).part == Some(file) && Sha(s.db, m) !in t.blobs
    ensures LeadsTo(sha, s, t') && Reached(s, t', m, Linked(m)) && t'.lock == t.lock
    ensures t'.blobs == t.blobs[Sha(s.db, m) := file] && t'.linked == t.linked + {m} && t'.uploads == t.uploads
  {
    t' := Go(t, WorkerOf(m), Linked(m)).(blobs := t.blobs[Sha(s.db, m) := file], linked := t.linked + {m});
    Then(sha, s, t, Install(WorkerOf(m), Link), t');
  }

  lemma UnlinkLeads(sha: Bytes -> Digest, s: State, t: State, m: int) returns (t': State)
    requires LeadsTo(sha, s, t) && Reached(s, t, m, Linked(m)) && IsResource(s.db, m)
    ensures LeadsTo(sha, s, t') && Reached(s, t', m, Installed(m)) && t'.lock == t.lock
    ensures t'.blobs == t.blobs && t'.linked == t.linked - {m} && UploadOf(t', m).part == None
  {
    t' := With(Go(t, WorkerOf(m), Installed(m)), m, UploadOf(t, m).(part := None)).(linked := t.linked - {m});
    Then(sha, s, t, Install(WorkerOf(m), Unlink(true, true)), t');
  }

  /** The digest is new: the part becomes the blob. */
  lemma NewBlobLeads(sha: Bytes -> Digest, s: State, t: State, m: int, file: Bytes) returns (t': State)
    requires LeadsTo(sha, s, t) && Reached(s, t, m, Locked(m)) && IsResource(s.db, m)
    requires UploadOf(t, m).part == Some(file) && Sha(s.db, m) !in t.blobs && m !in t.linked
    ensures LeadsTo(sha, s, t') && Reached(s, t', m, Installed(m)) && t'.lock == t.lock
    ensures t'.blobs == t.blobs[Sha(s.db, m) := file] && t'.linked == t.linked && UploadOf(t', m).part == None
  {
    var t1 := LinkLeads(sha, s, t, m, file);
    t' := UnlinkLeads(sha, s, t1, m);
  }

  /** The digest is there: the blob is trusted and the part is dropped. */
  lemma OldBlobLeads(sha: Bytes -> Digest, s: State, t: State, m: int) returns (t': State)
    requires LeadsTo(sha, s, t) && Reached(s, t, m, Locked(m)) && IsResource(s.db, m) && m !in t.linked
    requires Sha(s.db, m) in t.blobs && |t.blobs[Sha(s.db, m)]| == Size(s.db, m) && sha(t.blobs[Sha(s.db, m)]) == Sha(s.db, m)
    ensures LeadsTo(sha, s, t') && Reached(s, t', m, Installed(m)) && t'.lock == t.lock
    ensures t'.blobs == t.blobs && t'.linked == t.linked && UploadOf(t', m).part == None
  {
    var w := WorkerOf(m);
    var t1 := Go(t, w, Exists(m));
    Then(sha, s, t, Install(w, LinkExists), t1);
    t' := With(Go(t1, w, Installed(m)), m, UploadOf(t, m).(part := None)).(linked := t1.linked - {m});
    Then(sha, s, t1, Install(w, Dedup(true, true)), t');
  }

  /** Message m is published, its part is gone, and the rest of the state is as it was in s. */
  ghost predicate Delivered(s: State, t: State, m: int) {
    && m in s.db.messages && IsPublished(t.db, m) && t.db == Publish(s.db, m, s.db.messages[m].sender).0
    && UploadOf(t, m).part == None && m !in t.linked && t.linked == s.linked && m !in t.challenges
    && (forall n :: n != m ==> UploadOf(t, n) == UploadOf(s, n))
    && t.workers == s.workers && t.lock == Free && t.gc == s.gc
  }

  lemma PublicationHappens(db: Db, m: int)
    requires EventLog.LogInv(db) && IsResource(db, m) && db.messages[m].status == Pending
    ensures IsPublished(Publish(db, m, db.messages[m].sender).0, m)
  {
    Completion.PublishAnswers(db, m);
  }

  lemma LookupLeads(sha: Bytes -> Digest, s: State, t: State, m: int) returns (t': State)
    requires LeadsTo(sha, s, t) && Reached(s, t, m, Installed(m)) && IsResource(s.db, m)
    ensures LeadsTo(sha, s, t') && Reached(s, t', m, Looked(m, s.db.messages[m].sender)) && t'.lock == t.lock
    ensures t'.blobs == t.blobs && t'.linked == t.linked && t'.uploads == t.uploads
  {
    t' := Go(t, WorkerOf(m), Looked(m, s.db.messages[m].sender));
    Then(sha, s, t, Finish(WorkerOf(m), Lookup(true, false)), t');
  }

  /** The row is published and the mutex released. */
  lemma PublishLeads(sha: Bytes -> Digest, s: State, t: State, m: int) returns (t': State)
    requires IsResource(s.db, m) && LeadsTo(sha, s, t) && Reached(s, t, m, Looked(m, s.db.messages[m].sender))
    requires At(s, WorkerOf(m), Idle) && t.lock == ByWorker(WorkerOf(m))
    ensures LeadsTo(sha, s, t') && t'.workers == s.workers && t'.lock == Free && t'.gc == s.gc
    ensures t'.db == Publish(s.db, m, s.db.messages[m].sender).0 && t'.blobs == t.blobs && t'.linked == t.linked
    ensures t'.uploads == t.uploads[m := Dropped(UploadOf(t, m))] && m !in t'.challenges
  {
    var w, sender := WorkerOf(m), s.db.messages[m].sender;
    var t1 := EndSession(Go(t, w, Leaving(m)), m).(db := Publish(s.db, m, sender).0);
    Then(sha, s, t, Finish(w, PublishRow(true, true)), t1);
    t' := Go(t1, w, Idle).(lock := Free);
    assert t'.workers == s.workers;
    Then(sha, s, t1, Finish(w, ReleaseLock), t');
  }

  lemma InstalledLeads(sha: Bytes -> Digest, s: State, t: State, m: int) returns (t': State)
    requires LeadsTo(sha, s, t) && Reached(s, t, m, Installed(m)) && IsResource(s.db, m) && s.db.messages[m].status == Pending
    requires EventLog.LogInv(s.db) && At(s, WorkerOf(m), Idle) && t.lock == ByWorker(WorkerOf(m))
    requires UploadOf(t, m).part == None && m !in t.linked && t.linked == s.linked
    ensures LeadsTo(sha, s, t') && Delivered(s, t', m) && t'.blobs == t.blobs
  {
    PublicationHappens(s.db, m);
    var t1 := LookupLeads(sha, s, t, m);
    t' := PublishLeads(sha, s, t1, m);
  }

  /** A blob that a new upload of the same content may rely on. */
  ghost predicate Sound(sha: Bytes -> Digest, s: State, m: int) {
    IsResource(s.db, m) && Sha(s.db, m) in s.blobs ==>
      m !in s.linked && |s.blobs[Sha(s.db, m)]| == Size(s.db, m) && sha(s.blobs[Sha(s.db, m)]) == Sha(s.db, m)
  }

  /** The store after the upload of `file`: it has grown by this content, or it had it. */
  predicate StoreGrows(sha: Bytes -> Digest, s: State, t: State, file: Bytes) {
    t.blobs == if sha(file) in s.blobs then s.blobs else s.blobs[sha(file) := file]
  }

  lemma UploadLeads(sha: Bytes -> Digest, s: State, m: int, file: Bytes) returns (t: State)
    requires HexDigests(sha) && Awaits(sha, s, m, file) && file != [] && OnItsWay(sha, UploadOf(s, m), file)
    requires Sound(sha, s, m) && s.lock == Free && EventLog.LogInv(s.db)
    ensures LeadsTo(sha, s, t) && Delivered(s, t, m) && StoreGrows(sha, s, t, file)
  {
    var t1 := UploadLeadsToHash(sha, s, m, file);
    var t2 := LockLeads(sha, s, t1, m);
    var t3;
    if sha(file) in s.blobs {
      t3 := OldBlobLeads(sha, s, t2, m);
    } else {
      t3 := NewBlobLeads(sha, s, t2, m, file);
    }
    t := InstalledLeads(sha, s, t3, m);
  }

  /** Every run in which a message waits for its file can be continued without a fault until the message
      is published, the store holds the file, and the part is gone. */
  lemma UploadGetsPublished(sha: Bytes -> Digest, states: seq<State>, actions: seq<Action>, m: int, file: Bytes)
    returns (states': seq<State>, actions': seq<Action>)
    requires HexDigests(sha) && file != [] && IsRun(sha, states, actions)
    requires var s := states[|states| - 1];
             && Declares(sha, s.db, m, file) && At(s, WorkerOf(m), Idle) && s.lock == Free
             && OnItsWay(sha, UploadOf(s, m), file) && Sound(sha, s, m)
    ensures Continues(sha, states, actions, states', actions')
    ensures var s, t := states[|states| - 1], states'[|states'| - 1];
            Delivered(s, t, m) && StoreGrows(sha, s, t, file)
  {
    var s := states[|states| - 1];
    CasLinks.RunKeepsBase(sha, states, actions, |states| - 1);
    var t := UploadLeads(sha, s, m, file);
    var p :| IsPath(sha, s, p) && End(s, p) == t;
    states', actions' := PathContinues(sha, states, actions, p);
  }

  /** A publication that was committed stands, whether or not the worker learns of it: one that does not
      goes on to repair the part of a message that is published. */
  lemma UnconfirmedPublicationStands(sha: Bytes -> Digest, states: seq<State>, actions: seq<Action>, i: nat, w: nat, m: int, reported: bool)
    requires IsRun(sha, states, actions) && i < |actions| && actions[i] == Finish(w, PublishRow(true, reported))
    requires m in states[i].db.messages && At(states[i], w, Looked(m, states[i].db.messages[m].sender))
    requires states[i].db.messages[m].status == Pending
    ensures var s, t := states[i], states[i + 1];
            IsPublished(t.db, m) && At(t, w, if reported then Leaving(m) else Restoring(m)) && t.blobs == s.blobs && t.lock == s.lock
  {
    CasLinks.RunKeepsBase(sha, states, actions, i);
    assert Step(sha, states[i], actions[i], states[i + 1]);
    PublicationHappens(states[i].db, m);
  }

  /** The third mismatch: the row has failed for good, the session is gone, and neither the store nor any
      other row is touched. */
  lemma GivingUpFailsTheRow(sha: Bytes -> Digest, states: seq<State>, actions: seq<Action>, i: nat, w: nat, m: int)
    requires IsRun(sha, states, actions) && i < |actions| && actions[i] == GiveUp(w, m)
    ensures var s, t := states[i], states[i + 1];
            && m in s.db.messages && t.db == s.db.(messages := s.db.messages[m := s.db.messages[m].(status := Failed)])
            && UploadOf(t, m).session == None && m !in t.challenges
            && t.blobs == s.blobs && t.linked == s.linked && t.workers == s.workers
            && forall n :: n != m ==> UploadOf(t, n) == UploadOf(s, n)
  {
    var s, t := states[i], states[i + 1];
    assert Step(sha, s, actions[i], t);
    assert t.db.messages == s.db.messages[m := s.db.messages[m].(status := Failed)];
  }

  // ---- After a crash -------------------------------------------------------------------------------------

  lemma {:induction false} WorkersStay(sha: Bytes -> Digest, states: seq<State>, actions: seq<Action>, i: nat)
    requires IsRun(sha, states, actions) && i < |states|
    ensures |states[i].workers| == FILE_WORKERS
  {
    if i > 0 {
      WorkersStay(sha, states, actions, i - 1);
      assert Step(sha, states[i - 1], actions[i - 1], states[i]);
    }
  }

  function Crashed(s: State): State {
    s.(uploads := map m | m in s.uploads :: Dropped(s.uploads[m]), challenges := {},
       workers := seq(|s.workers|, _ => Idle), gc := GcIdle, lock := Free)
  }

  /** Wherever the workers, the mutex and the cleaner stand, after a restart of the process the upload can
      be completed: no reachable state is a dead end. */
  lemma RestartedUploadGetsPublished(sha: Bytes -> Digest, states: seq<State>, actions: seq<Action>, m: int, file: Bytes)
    returns (states': seq<State>, actions': seq<Action>)
    requires HexDigests(sha) && file != [] && IsRun(sha, states, actions)
    requires var s := states[|states| - 1];
             && Declares(sha, s.db, m, file) && (UploadOf(s, m).part.Some? ==> UploadOf(s, m).part.value <= file)
             && Sound(sha, s, m)
    ensures Continues(sha, states + [Crashed(states[|states| - 1])], actions + [ProcessCrash], states', actions')
    ensures var s, t := states[|states| - 1], states'[|states'| - 1];
            && IsPublished(t.db, m) && StoreGrows(sha, s, t, file)
            && UploadOf(t, m).part == None && m !in t.linked && t.linked == s.linked
  {
    var s := states[|states| - 1];
    WorkersStay(sha, states, actions, |states| - 1);
    var states1, actions1 := states + [Crashed(s)], actions + [ProcessCrash];
    assert IsRun(sha, states1, actions1);
    states', actions' := UploadGetsPublished(sha, states1, actions1, m, file);
  }

  lemma RepairLeads(sha: Bytes -> Digest, s: State, w: nat, m: int) returns (t: State)
    requires At(s, w, Restoring(m)) && s.lock == ByWorker(w) && IsResource(s.db, m) && Sha(s.db, m) in s.blobs
    requires UploadOf(s, m).session.Some? && UploadOf(s, m).session.value.received == |s.blobs[Sha(s.db, m)]| == Size(s.db, m)
    ensures LeadsTo(sha, s, t) && t.lock == Free && t.workers == s.workers[w := Idle] && t.db == s.db
    ensures t.blobs == s.blobs && t.linked == s.linked - {m} && UploadOf(t, m) == UploadOf(s, m).(part := Some(s.blobs[Sha(s.db, m)]), acked := s.blobs[Sha(s.db, m)])
  {
    var blob := s.blobs[Sha(s.db, m)];
    var step, u' := Up.CopyBack(blob, |blob|, false), UploadOf(s, m).(part := Some(blob), acked := blob);
    var t1 := With(Go(s, w, Leaving(m)), m, u').(linked := s.linked - {m}, challenges := s.challenges - {m});
    assert Uploads(sha, s, m, step, t1.uploads);
    Stay(sha, s);
    Then(sha, s, s, Finish(w, Restore(Some(step))), t1);
    t := Go(t1, w, Idle).(lock := Free);
    assert t.workers == s.workers[w := Idle];
    Then(sha, s, t1, Finish(w, ReleaseLock), t);
  }

  /** A completion that broke off after the blob was there can be repaired in place: the whole part and
      the session are back, under its own name, and the mutex is free. */
  lemma BrokenCompletionGetsRepaired(sha: Bytes -> Digest, states: seq<State>, actions: seq<Action>, w: nat, m: int)
    returns (states': seq<State>, actions': seq<Action>)
    requires IsRun(sha, states, actions)
    requires var s := states[|states| - 1];
             && At(s, w, Restoring(m)) && s.lock == ByWorker(w) && IsResource(s.db, m) && Sha(s.db, m) in s.blobs
             && UploadOf(s, m).session.Some? && UploadOf(s, m).session.value.received == |s.blobs[Sha(s.db, m)]| == Size(s.db, m)
    ensures Continues(sha, states, actions, states', actions')
    ensures var s, t := states[|states| - 1], states'[|states'| - 1];
            && t.lock == Free && At(t, w, Idle) && t.db == s.db && t.blobs == s.blobs && m !in t.linked
            && UploadOf(t, m).part == Some(s.blobs[Sha(s.db, m)]) && UploadOf(t, m).session == UploadOf(s, m).session
  {
    var s := states[|states| - 1];
    var t := RepairLeads(sha, s, w, m);
    var p :| IsPath(sha, s, p) && End(s, p) == t;
    states', actions' := PathContinues(sha, states, actions, p);
  }

  // ---- Proof of possession -------------------------------------------------------------------------------

  /** Message m is pending, its sender has published the same content before, and the store has it. */
  ghost predicate Provable(s: State, m: int, twin: int) {
    && IsResource(s.db, m) && s.db.messages[m].status == Pending && IsTwin(s.db, m, twin)
    && Sha(s.db, m) in s.blobs && |s.blobs[Sha(s.db, m)]| == Size(s.db, m)
  }

  lemma ChallengeLeads(sha: Bytes -> Digest, s: State, t: State, m: int, twin: int) returns (t': State)
    requires LeadsTo(sha, s, t) && t == s.(uploads := t.uploads) && (t == s || OnlyUpload(s, t, m))
    requires Provable(s, m, twin) && At(s, WorkerOf(m), Idle)
    requires UploadOf(t, m).session.Some? && UploadOf(t, m).session.value.received == 0
    ensures LeadsTo(sha, s, t')
    ensures t' == Go(t, WorkerOf(m), Proving(m, s.db.messages[m].sender)).(challenges := t'.challenges)
  {
    var w := WorkerOf(m);
    var t1 := t.(challenges := t.challenges + {m});
    Then(sha, s, t, Proof(w, Challenge(m, twin)), t1);
    t' := Go(t1, w, Proving(m, s.db.messages[m].sender)).(challenges := t1.challenges - {m});
    Then(sha, s, t1, Proof(w, BeginProof(m)), t');
  }

  lemma ProofLockLeads(sha: Bytes -> Digest, s: State, t: State, m: int) returns (t': State)
    requires LeadsTo(sha, s, t) && IsResource(s.db, m) && At(t, WorkerOf(m), Proving(m, s.db.messages[m].sender)) && t.lock == Free
    ensures LeadsTo(sha, s, t')
    ensures t' == Go(t, WorkerOf(m), ProofLocked(m, s.db.messages[m].sender)).(lock := ByWorker(WorkerOf(m)))
  {
    t' := Go(t, WorkerOf(m), ProofLocked(m, s.db.messages[m].sender)).(lock := ByWorker(WorkerOf(m)));
    Then(sha, s, t, Proof(WorkerOf(m), TakeProofLock), t');
  }

  lemma ProofPublishLeads(sha: Bytes -> Digest, s: State, t: State, m: int) returns (t': State)
    requires LeadsTo(sha, s, t) && IsResource(t.db, m) && At(t, WorkerOf(m), ProofLocked(m, t.db.messages[m].sender))
    requires t.lock == ByWorker(WorkerOf(m)) && Sha(t.db, m) in t.blobs
    ensures LeadsTo(sha, s, t')
    ensures t'.db == Publish(t.db, m, t.db.messages[m].sender).0 && t'.blobs == t.blobs && t'.linked == t.linked
    ensures t'.lock == Free && t'.workers == t.workers[WorkerOf(m) := Idle] && t'.uploads == t.uploads[m := Dropped(UploadOf(t, m))]
    ensures m !in t'.challenges
  {
    var w := WorkerOf(m);
    var t1 := EndSession(Go(t, w, Leaving(m)).(db := Publish(t.db, m, t.db.messages[m].sender).0), m);
    Then(sha, s, t, Proof(w, ProofPublish(true, true)), t1);
    t' := Go(t1, w, Idle).(lock := Free);
    assert t'.workers == t.workers[w := Idle];
    Then(sha, s, t1, Finish(w, ReleaseLock), t');
  }

  lemma ShortPartReloads(sha: Bytes -> Digest, total: nat, u: Up.Upload) returns (u': Up.Upload)
    requires u.session.None? && FileLength(u.part) <= Up.CHUNK
    ensures Advances(sha, total, u, Up.Load(true), u') && u'.session.Some? && u'.session.value.received == 0
  {
    ResumeOffsetBounds(FileLength(u.part), total, Up.CHUNK);
    u' := Up.Upload(Up.Recovered(u.part, total), Some(Up.Session(0, true, [], None)), []);
  }

  /** A session at offset zero, live or rebuilt. */
  lemma ZeroSessionLeads(sha: Bytes -> Digest, s: State, m: int) returns (t: State)
    requires IsResource(s.db, m) && s.db.messages[m].status == Pending && At(s, WorkerOf(m), Idle) && m !in s.linked
    requires if UploadOf(s, m).session.Some? then UploadOf(s, m).session.value.received == 0 else FileLength(UploadOf(s, m).part) <= Up.CHUNK
    ensures LeadsTo(sha, s, t) && t == s.(uploads := t.uploads) && (t == s || OnlyUpload(s, t, m))
    ensures UploadOf(t, m).session.Some? && UploadOf(t, m).session.value.received == 0
  {
    Stay(sha, s);
    t := s;
    if UploadOf(s, m).session.None? {
      var u' := ShortPartReloads(sha, Size(s.db, m), UploadOf(s, m));
      t := With(s, m, u');
      Then(sha, s, s, Local(WorkerOf(m), m, Up.Load(true)), t);
    }
  }

  lemma ProofLeads(sha: Bytes -> Digest, s: State, m: int, twin: int) returns (t: State)
    requires Provable(s, m, twin) && At(s, WorkerOf(m), Idle) && s.lock == Free && m !in s.linked
    requires if UploadOf(s, m).session.Some? then UploadOf(s, m).session.value.received == 0 else FileLength(UploadOf(s, m).part) <= Up.CHUNK
    ensures LeadsTo(sha, s, t) && t.db == Publish(s.db, m, s.db.messages[m].sender).0 && t.blobs == s.blobs
    ensures t.linked == s.linked && t.workers == s.workers && t.lock == Free && UploadOf(t, m).session == None && m !in t.challenges
  {
    var t1 := ZeroSessionLeads(sha, s, m);
    var t2 := ChallengeLeads(sha, s, t1, m, twin);
    var t3 := ProofLockLeads(sha, s, t2, m);
    t := ProofPublishLeads(sha, s, t3, m);
    assert t.workers == s.workers;
  }

  /** Every run in which the sender of a waiting message has published the same content before, and the
      store has it, can be continued without a fault until the proof publishes the message; the store
      is left as it was. */
  lemma ProofGetsPublished(sha: Bytes -> Digest, states: seq<State>, actions: seq<Action>, m: int, twin: int)
    returns (states': seq<State>, actions': seq<Action>)
    requires IsRun(sha, states, actions)
    requires var s := states[|states| - 1];
             && Provable(s, m, twin) && At(s, WorkerOf(m), Idle) && s.lock == Free && m !in s.linked
             && if UploadOf(s, m).session.Some? then UploadOf(s, m).session.value.received == 0 else FileLength(UploadOf(s, m).part) <= Up.CHUNK
    ensures Continues(sha, states, actions, states', actions')
    ensures var s, t := states[|states| - 1], states'[|states'| - 1];
            && IsPublished(t.db, m) && t.db == Publish(s.db, m, s.db.messages[m].sender).0 && t.blobs == s.blobs
            && t.linked == s.linked && t.workers == s.workers && t.lock == Free && UploadOf(t, m).session == None && m !in t.challenges
  {
    var s := states[|states| - 1];
    CasLinks.RunKeepsBase(sha, states, actions, |states| - 1);
    PublicationHappens(s.db, m);
    var t := ProofLeads(sha, s, m, twin);
    var p :| IsPath(sha, s, p) && End(s, p) == t;
    states', actions' := PathContinues(sha, states, actions, p);
  }

  // ---- Garbage collection --------------------------------------------------------------------------------

  lemma CollectionLeads(sha: Bytes -> Digest, s: State, d: Digest) returns (t: State)
    requires s.gc == GcIdle && s.lock == Free && NoReference(s.db, d)
    ensures LeadsTo(sha, s, t) && t == s.(blobs := s.blobs - {d}, linked := set m | m in s.linked && !Names(s.db, m, d))
  {
    var t1, t2 := s.(gc := GcLocked(d), lock := ByCleaner), s.(gc := GcOrphan(d), lock := ByCleaner);
    t := s.(blobs := s.blobs - {d}, linked := set m | m in s.linked && !Names(s.db, m, d));
    Stay(sha, s);
    Then(sha, s, s, Clean(GcTakeLock(d)), t1);
    Then(sha, s, t1, Clean(GcQuery(true)), t2);
    Then(sha, s, t2, Clean(GcUnlink(true)), t);
  }

  /** A blob that no published message names can be collected, whatever the workers do outside the mutex,
      and nothing but this blob and the links to it is touched. */
  lemma OrphanGetsCollected(sha: Bytes -> Digest, states: seq<State>, actions: seq<Action>, d: Digest)
    returns (states': seq<State>, actions': seq<Action>)
    requires IsRun(sha, states, actions)
    requires var s := states[|states| - 1]; s.gc == GcIdle && s.lock == Free && NoReference(s.db, d)
    ensures Continues(sha, states, actions, states', actions')
    ensures var s, t := states[|states| - 1], states'[|states'| - 1];
            d !in t.blobs && t == s.(blobs := s.blobs - {d}, linked := set m | m in s.linked && !Names(s.db, m, d))
  {
    var s := states[|states| - 1];
    var t := CollectionLeads(sha, s, d);
    var p :| IsPath(sha, s, p) && End(s, p) == t;
    states', actions' := PathContinues(sha, states, actions, p);
  }

  // ---- From empty tables -----------------------------------------------------------------------------------

  function Request(file: Bytes, digest: Digest): SendRequest {
    SendRequest(1, 1, "a", FILE, "", Some(Resource("f", |file|, digest, "m")), 0)
  }

  function OneRow(file: Bytes, digest: Digest): Db {
    Example.Tables(0, digest).(messages := map[1 := NewMessage(Request(file, digest), Pending)])
  }

  /** Two users, their chat, and a message that waits for `file`. */
  lemma RowIsStored(sha: Bytes -> Digest, file: Bytes) returns (states: seq<State>, actions: seq<Action>)
    ensures IsRun(sha, states, actions) && states[|states| - 1] == Example.Start(OneRow(file, sha(file)))
  {
    var digest := sha(file);
    var db1, db2, db3 := EmptyDb().(users := map[1 := 0]), EmptyDb().(users := map[1 := 0, 2 := 0]), Example.Tables(0, digest);
    Example.ChatIsCreated(digest);
    assert Transaction(db3, Send(Request(file, digest), 1), OneRow(file, digest)) by {
      assert forall id :: !HasKey(db3, id, 1, "a");
    }
    states := [Example.Start(EmptyDb()), Example.Start(db1), Example.Start(db2), Example.Start(db3), Example.Start(OneRow(file, digest))];
    actions := [Database(Register(1)), Database(Register(2)), Database(CreateChat(1, 2, 1)), Database(Send(Request(file, digest), 1))];
  }

  /** For every file there is a run from empty tables that ends with the file published and stored. */
  lemma EveryFileCanBePublished(sha: Bytes -> Digest, file: Bytes) returns (states: seq<State>, actions: seq<Action>)
    requires HexDigests(sha) && file != []
    ensures IsRun(sha, states, actions)
    ensures var s := states[|states| - 1];
            && IsPublished(s.db, 1) && Sha(s.db, 1) == sha(file) && s.blobs == map[sha(file) := file]
            && UploadOf(s, 1).part == None && 1 !in s.linked && s.lock == Free
  {
    states, actions := RowIsStored(sha, file);
    var s := states[|states| - 1];
    assert EventLog.LogInv(s.db) by { CasLinks.RunKeepsBase(sha, states, actions, |states| - 1); }
    CasLinks.PublishAddsOne(s.db, 1, 1);
    states, actions := UploadGetsPublished(sha, states, actions, 1, file);
  }
}
