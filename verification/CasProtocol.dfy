/** Uploads, instant proofs, publication and garbage collection running side by side
    (server/ResourceServer/src/FileWorker.cpp, ResourceServer.cpp, ResourceUploadFile.cpp).

    One step is one system call, one critical section of a worker's private data, or one database
    transaction.  Every step may fail; a failing rename may have taken effect, and a transaction
    reported as Transient may have committed.  BlobInstallGcMutex is explicit: steps of other
    threads interleave freely inside its critical sections.  File age is left open: the cleaner may
    find any file stale at any time.

    A blob is installed by a hard link, so until the part's own name is unlinked the two names are one
    file: `linked` holds the messages in that state, and whatever edits such a part in place edits the
    blob as well. */
module CasProtocol {
  import opened Basics
  import opened UploadFile
  import opened Store
  import EventLog
  import Up = UploadRuns

  /** Where a FileWorker thread is.  From Locked to Leaving it holds the mutex. */
  datatype Pc =
    | Idle
    | Hashed(message: int)
    | Locked(message: int)
    | Linked(message: int)
    | Exists(message: int)
    | Installed(message: int)
    | Looked(message: int, sender: int)
    | Restoring(message: int)
    | Proving(message: int, sender: int)
    | ProofLocked(message: int, sender: int)
    | Leaving(message: int)

  /** Where the cleanup thread is with the blob it looks at. */
  datatype Gc = GcIdle | GcLocked(digest: Digest) | GcOrphan(digest: Digest)

  datatype Holder = Free | ByWorker(worker: nat) | ByCleaner

  datatype State = State(db: Db, blobs: map<Digest, Bytes>, linked: set<int>, uploads: map<int, Up.Upload>, challenges: set<int>,
                         workers: seq<Pc>, gc: Gc, lock: Holder)

  /** From the hashed file to the installed blob (CompleteResourceUpload, DurableRename). */
  datatype InstallStep =
    | FlushFails
    | TakeLock
    | RenameFails
    | Link
    | LinkExists
    | Unlink(unlinked: bool, synced: bool)
    | Dedup(trusted: bool, removed: bool)

  /** From the installed blob to the reply. */
  datatype FinishStep =
    | Lookup(found: bool, transient: bool)
    | PublishRow(committed: bool, reported: bool)
    | Restore(repair: Option<Up.Step>)
    | ReleaseLock

  /** HandleInstantProof, and the challenge that precedes it. */
  datatype ProofStep =
    | Challenge(message: int, twin: int)
    | BeginProof(message: int)
    | TakeProofLock
    | ProofFails
    | ProofPublish(committed: bool, reported: bool)

  /** RunResourceCleanup. */
  datatype GcStep =
    | RemovePart(message: int)
    | GcTakeLock(digest: Digest)
    | GcQuery(orphan: bool)
    | GcUnlink(removed: bool)

  datatype Action =
    | Local(worker: nat, message: int, step: Up.Step)
    | Hash(worker: nat, message: int, step: Up.Step)
    | GiveUp(worker: nat, message: int)
    | Install(worker: nat, install: InstallStep)
    | Finish(worker: nat, finish: FinishStep)
    | Proof(worker: nat, proof: ProofStep)
    | Clean(gcStep: GcStep)
    | Database(op: Op)
    | ProcessCrash

  // ---- Access ----------------------------------------------------------------------------------------

  predicate IsResource(db: Db, m: int) {
    m in db.messages && db.messages[m].resource.Some?
  }

  function Sha(db: Db, m: int): Digest
    requires IsResource(db, m)
  {
    db.messages[m].resource.value.sha
  }

  function Size(db: Db, m: int): nat
    requires IsResource(db, m)
  {
    db.messages[m].resource.value.size
  }

  predicate Names(db: Db, m: int, digest: Digest) {
    IsResource(db, m) && Sha(db, m) == digest
  }

  predicate IsPublished(db: Db, m: int) {
    IsResource(db, m) && db.messages[m].status == Published
  }

  function UploadOf(s: State, m: int): Up.Upload {
    if m in s.uploads then s.uploads[m] else Up.FreshUpload()
  }

  /** FILE_WORKER_COUNT. */
  const FILE_WORKERS: nat := 4

  /** ResourceWorkerIndex: every task of one message runs on one worker. */
  predicate Owns(w: nat, m: int) {
    m % FILE_WORKERS == w
  }

  predicate At(s: State, w: nat, pc: Pc) {
    w < |s.workers| && s.workers[w] == pc
  }

  function Go(s: State, w: nat, pc: Pc): State
    requires w < |s.workers|
  {
    s.(workers := s.workers[w := pc])
  }

  /** One event in the life of message m's upload. */
  ghost predicate Uploads(sha: Bytes -> Digest, s: State, m: int, step: Up.Step, uploads': map<int, Up.Upload>) {
    && IsResource(s.db, m)
    && m in uploads'
    && uploads' == s.uploads[m := uploads'[m]]
    && Up.Next(sha, Size(s.db, m), UploadOf(s, m), step, uploads'[m])
  }

  /** The disk after one event in the life of message m's upload. */
  function OnDisk(s: State, m: int, step: Up.Step, uploads': map<int, Up.Upload>): State
    requires IsResource(s.db, m) && m in uploads'
  {
    if Up.InPlace(step) then
      s.(uploads := uploads',
         blobs := if m in s.linked && uploads'[m].part.Some? then s.blobs[Sha(s.db, m) := uploads'[m].part.value] else s.blobs)
    else if step.Restart? || step.CopyBack? || step.Discard? then s.(uploads := uploads', linked := s.linked - {m})
    else s.(uploads := uploads')
  }

  function Dropped(u: Up.Upload): Up.Upload {
    u.(session := None)
  }

  // ---- Steps -----------------------------------------------------------------------------------------

  /** A worker between two completions: chunks, reloads, evictions, a restart after a mismatch. */
  ghost predicate LocalStep(sha: Bytes -> Digest, s: State, w: nat, m: int, step: Up.Step, s': State) {
    && At(s, w, Idle) && Owns(w, m)
    && (step.Chunk? || step.Load? || step.Forget? || step.CrashInWrite? || step.Restart? || step.Discard?)
    && (step.Load? ==> IsResource(s.db, m) && s.db.messages[m].status == Pending)
    && (step.Restart? ==> IsResource(s.db, m) && UploadOf(s, m).session.Some?
                          && UploadOf(s, m).session.value.finalHex != Some(Sha(s.db, m)))
    && Uploads(sha, s, m, step, s'.uploads)
    && s' == OnDisk(s, m, step, s'.uploads).(challenges := if step.Load? then s.challenges else s.challenges - {m})
  }

  ghost predicate HashStep(sha: Bytes -> Digest, s: State, w: nat, m: int, step: Up.Step, s': State) {
    && At(s, w, Idle) && Owns(w, m) && step.Finalize?
    && Uploads(sha, s, m, step, s'.uploads)
    && var matches := s'.uploads[m].session.Some? && s'.uploads[m].session.value.finalHex == Some(Sha(s.db, m));
    s' == s.(uploads := s'.uploads, workers := if matches then s.workers[w := Hashed(m)] else s.workers)
  }

  /** The third whole-file mismatch: MarkResourceFailed succeeded. */
  ghost predicate GiveUpStep(s: State, w: nat, m: int, s': State) {
    && At(s, w, Idle) && Owns(w, m) && IsResource(s.db, m) && s.db.messages[m].status == Pending
    && s' == s.(db := Expire(s.db, [m]), uploads := s.uploads[m := Dropped(UploadOf(s, m))], challenges := s.challenges - {m})
  }

  ghost predicate InstallNext(sha: Bytes -> Digest, s: State, w: nat, step: InstallStep, s': State) {
    && w < |s.workers| && !s.workers[w].Idle?
    && var pc, m := s.workers[w], s.workers[w].message;
    && IsResource(s.db, m)
    && match step
       case FlushFails => pc.Hashed? && s' == Go(s, w, Idle)
       case TakeLock => pc.Hashed? && s.lock == Free && s' == Go(s, w, Locked(m)).(lock := ByWorker(w))
       case RenameFails => pc.Locked? && s' == Go(s, w, Restoring(m))
       case Link =>
         && pc.Locked? && Sha(s.db, m) !in s.blobs && UploadOf(s, m).part.Some?
         && s' == Go(s, w, Linked(m)).(blobs := s.blobs[Sha(s.db, m) := UploadOf(s, m).part.value], linked := s.linked + {m})
       case LinkExists => pc.Locked? && Sha(s.db, m) in s.blobs && s' == Go(s, w, Exists(m))
       case Unlink(unlinked, synced) =>
         && pc.Linked?
         && (if unlinked then Uploads(sha, s, m, Up.Discard, s'.uploads) else s'.uploads == s.uploads)
         && s' == Go(s, w, if unlinked && synced then Installed(m) else Restoring(m)).(uploads := s'.uploads,
                     linked := if unlinked then s.linked - {m} else s.linked)
       case Dedup(trusted, removed) =>
         && pc.Exists?
         && (trusted ==> Sha(s.db, m) in s.blobs && |s.blobs[Sha(s.db, m)]| == Size(s.db, m)
                         && sha(s.blobs[Sha(s.db, m)]) == Sha(s.db, m))
         && (if trusted && removed then Uploads(sha, s, m, Up.Discard, s'.uploads) else s'.uploads == s.uploads)
         && s' == Go(s, w, if trusted then Installed(m) else Restoring(m)).(uploads := s'.uploads,
                     linked := if trusted && removed then s.linked - {m} else s.linked)
  }

  /** The reply ends the upload session of message m. */
  function EndSession(s: State, m: int): State {
    s.(uploads := s.uploads[m := Dropped(UploadOf(s, m))], challenges := s.challenges - {m})
  }

  ghost predicate FinishNext(sha: Bytes -> Digest, s: State, w: nat, step: FinishStep, s': State) {
    && w < |s.workers| && !s.workers[w].Idle?
    && var pc, m := s.workers[w], s.workers[w].message;
    && (step.ReleaseLock? || IsResource(s.db, m))
    && match step
       case Lookup(found, transient) =>
         && pc.Installed?
         && s' == if transient then Go(s, w, Restoring(m))
                  else if found then Go(s, w, Looked(m, s.db.messages[m].sender))
                  else EndSession(Go(s, w, Leaving(m)), m)
       case PublishRow(committed, reported) =>
         && pc.Looked? && (reported ==> committed)
         && var db' := if committed then Publish(s.db, m, pc.sender).0 else s.db;
         s' == if reported then EndSession(Go(s, w, Leaving(m)), m).(db := db') else Go(s, w, Restoring(m)).(db := db')
       case Restore(repair) =>
         && pc.Restoring?
         && if repair.None? then s' == Go(s, w, Leaving(m))
            else
              var st := repair.value;
              && (st.CopyBack? ==> Sha(s.db, m) in s.blobs && st.source == s.blobs[Sha(s.db, m)])
              && (st.CopyBack? || st.RollBack? || st.Discard?)
              && Uploads(sha, s, m, st, s'.uploads)
              && s' == Go(OnDisk(s, m, st, s'.uploads), w, if st.Discard? then Restoring(m) else Leaving(m)).(
                          challenges := if st.Discard? then s.challenges else s.challenges - {m})
       case ReleaseLock => pc.Leaving? && s.lock == ByWorker(w) && s' == Go(s, w, Idle).(lock := Free)
  }

  ghost predicate ProofNext(s: State, w: nat, step: ProofStep, s': State) {
    && w < |s.workers|
    && var pc := s.workers[w];
    match step
    case Challenge(m, twin) =>
      && pc.Idle? && Owns(w, m) && IsResource(s.db, m) && s.db.messages[m].status == Pending
      && UploadOf(s, m).session.Some? && UploadOf(s, m).session.value.received == 0
      && IsTwin(s.db, m, twin)
      && Sha(s.db, m) in s.blobs && |s.blobs[Sha(s.db, m)]| == Size(s.db, m)
      && s' == s.(challenges := s.challenges + {m})
    case BeginProof(m) =>
      && pc.Idle? && Owns(w, m) && IsResource(s.db, m) && s.db.messages[m].status == Pending && m in s.challenges
      && s' == Go(s, w, Proving(m, s.db.messages[m].sender)).(challenges := s.challenges - {m})
    case TakeProofLock =>
      && pc.Proving? && s.lock == Free
      && s' == Go(s, w, ProofLocked(pc.message, pc.sender)).(lock := ByWorker(w))
    case ProofFails => pc.ProofLocked? && s' == Go(s, w, Leaving(pc.message))
    case ProofPublish(committed, reported) =>
      && pc.ProofLocked? && (reported ==> committed)
      && IsResource(s.db, pc.message) && Sha(s.db, pc.message) in s.blobs
      && var db' := if committed then Publish(s.db, pc.message, pc.sender).0 else s.db;
      && var s1 := Go(s, w, Leaving(pc.message)).(db := db');
      s' == if reported then EndSession(s1, pc.message) else s1
  }

  ghost predicate CleanNext(sha: Bytes -> Digest, s: State, step: GcStep, s': State) {
    match step
    case RemovePart(m) => Uploads(sha, s, m, Up.Discard, s'.uploads) && s' == OnDisk(s, m, Up.Discard, s'.uploads)
    case GcTakeLock(d) => s.gc == GcIdle && s.lock == Free && s' == s.(gc := GcLocked(d), lock := ByCleaner)
    case GcQuery(orphan) =>
      && s.gc.GcLocked?
      && if orphan then NoReference(s.db, s.gc.digest) && s' == s.(gc := GcOrphan(s.gc.digest))
         else s' == s.(gc := GcIdle, lock := Free)
    case GcUnlink(removed) =>
      && s.gc.GcOrphan?
      && s' == s.(gc := GcIdle, lock := Free, blobs := if removed then s.blobs - {s.gc.digest} else s.blobs,
                  linked := if removed then set m | m in s.linked && !Names(s.db, m, s.gc.digest) else s.linked)
  }

  ghost predicate CrashNext(s: State, s': State) {
    s' == s.(uploads := map m | m in s.uploads :: Dropped(s.uploads[m]), challenges := {},
             workers := seq(|s.workers|, _ => Idle), gc := GcIdle, lock := Free)
  }

  ghost predicate Step(sha: Bytes -> Digest, s: State, action: Action, s': State) {
    match action
    case Local(w, m, step) => LocalStep(sha, s, w, m, step, s')
    case Hash(w, m, step) => HashStep(sha, s, w, m, step, s')
    case GiveUp(w, m) => GiveUpStep(s, w, m, s')
    case Install(w, step) => InstallNext(sha, s, w, step, s')
    case Finish(w, step) => FinishNext(sha, s, w, step, s')
    case Proof(w, step) => ProofNext(s, w, step, s')
    case Clean(step) => CleanNext(sha, s, step, s')
    case Database(op) => !op.PublishResource? && Transaction(s.db, op, s'.db) && s' == s.(db := s'.db)
    case ProcessCrash => CrashNext(s, s')
  }

  /** SenderHasPublishedContent: a published message of the same sender with this content. */
  predicate IsTwin(db: Db, m: int, twin: int) {
    && IsResource(db, m) && IsPublished(db, twin) && db.messages[twin].sender == db.messages[m].sender
    && Sha(db, twin) == Sha(db, m) && Size(db, twin) == Size(db, m)
  }

  /** BlobHasPublishedReference answered No. */
  ghost predicate NoReference(db: Db, digest: Digest) {
    forall m :: IsPublished(db, m) ==> Sha(db, m) != digest
  }

  ghost predicate Init(s: State) {
    && s.db == EmptyDb() && s.blobs == map[] && s.linked == {} && s.uploads == map[] && s.challenges == {}
    && |s.workers| == FILE_WORKERS && (forall w :: 0 <= w < |s.workers| ==> s.workers[w] == Idle)
    && s.gc == GcIdle && s.lock == Free
  }

  ghost predicate IsRun(sha: Bytes -> Digest, states: seq<State>, actions: seq<Action>) {
    && |states| == |actions| + 1
    && Init(states[0])
    && forall i :: 0 <= i < |actions| ==> Step(sha, states[i], actions[i], states[i + 1])
  }
}
