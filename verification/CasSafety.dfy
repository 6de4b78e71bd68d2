/** Safety of the content-addressed store over every interleaving of CasProtocol. */
module CasSafety {
  import opened Basics
  import opened UploadFile
  import opened Store
  import EventLog
  import opened CasProtocol
  import opened CasLinks
  import Up = UploadRuns

  // ---- Invariant ---------------------------------------------------------------------------------------

  ghost predicate BlobsHashed(sha: Bytes -> Digest, s: State) {
    forall d :: d in s.blobs ==> sha(s.blobs[d]) == d
  }

  predicate Holds(s: State, m: int) {
    IsResource(s.db, m) && Sha(s.db, m) in s.blobs && |s.blobs[Sha(s.db, m)]| == Size(s.db, m)
  }

  ghost predicate Referenced(s: State) {
    forall m :: IsPublished(s.db, m) ==> Holds(s, m)
  }

  ghost predicate UploadsOk(sha: Bytes -> Digest, s: State) {
    forall m :: m in s.uploads ==> IsResource(s.db, m) && Up.Inv(sha, Size(s.db, m), s.uploads[m])
  }

  /** The whole file of message m has been hashed and matched its declared digest. */
  predicate Ready(s: State, m: int) {
    && IsResource(s.db, m) && UploadOf(s, m).session.Some?
    && UploadOf(s, m).session.value.finalHex == Some(Sha(s.db, m))
  }

  predicate InCritical(pc: Pc) {
    !pc.Idle? && !pc.Hashed? && !pc.Proving?
  }

  ghost predicate PcOk(s: State, w: nat)
    requires w < |s.workers|
  {
    var pc := s.workers[w];
    && (!pc.Idle? ==> Owns(w, pc.message))
    && (pc.Hashed? || pc.Locked? || pc.Exists? || pc.Linked? || pc.Installed? || pc.Looked? || pc.Restoring? ==> Ready(s, pc.message))
    && (pc.Linked? || pc.Installed? || pc.Looked? ==> Holds(s, pc.message))
    && (pc.Proving? || pc.ProofLocked? ==> HasTwin(s.db, pc.message))
  }

  ghost predicate WorkersOk(s: State) {
    |s.workers| == FILE_WORKERS && forall w :: 0 <= w < |s.workers| ==> PcOk(s, w)
  }

  ghost predicate LockOk(s: State) {
    && (s.lock == ByCleaner <==> s.gc != GcIdle)
    && forall w :: 0 <= w < |s.workers| ==> (InCritical(s.workers[w]) <==> s.lock == ByWorker(w))
  }

  ghost predicate GcOk(s: State) {
    s.gc.GcOrphan? ==> NoReference(s.db, s.gc.digest)
  }

  ghost predicate ChallengesOk(s: State) {
    forall m :: m in s.challenges ==> HasTwin(s.db, m)
  }

  /** What holds, beside Base, as long as nothing is edited through a link. */
  ghost predicate Inv(sha: Bytes -> Digest, s: State) {
    && BlobsHashed(sha, s) && Referenced(s) && UploadsOk(sha, s)
    && WorkersOk(s) && LockOk(s) && GcOk(s) && ChallengesOk(s)
  }

  // ---- Frames ------------------------------------------------------------------------------------------------

  /** What a step of worker w on message m leaves alone: the other workers, the other uploads and
      every blob. */
  ghost predicate WorkerFrame(s: State, s': State, w: nat, m: int) {
    && |s'.workers| == |s.workers|
    && (forall v :: 0 <= v < |s.workers| && v != w ==> s'.workers[v] == s.workers[v])
    && (forall n :: n != m ==> UploadOf(s', n).session == UploadOf(s, n).session)
    && (forall d :: d in s.blobs ==> d in s'.blobs && s'.blobs[d] == s.blobs[d])
    && s'.gc == s.gc
  }

  /** A worker step disturbs no other worker. */
  lemma WorkerFrameKeepsOthers(s: State, s': State, w: nat, m: int)
    requires WorkersOk(s) && WorkerFrame(s, s', w, m) && Owns(w, m) && w < |s.workers| && RowsKept(s.db, s'.db)
    requires PcOk(s', w)
    ensures WorkersOk(s')
  {
    forall v | 0 <= v < |s'.workers| ensures PcOk(s', v) {
      if v != w {
        assert PcOk(s, v);
        PcFollows(s, s', v);
      }
    }
  }

  lemma PcFollows(s: State, s': State, v: nat)
    requires v < |s.workers| == |s'.workers| && s'.workers[v] == s.workers[v] && PcOk(s, v) && RowsKept(s.db, s'.db)
    requires !s.workers[v].Idle? ==>
               && UploadOf(s', s.workers[v].message).session == UploadOf(s, s.workers[v].message).session
               && (Holds(s, s.workers[v].message) && InCritical(s.workers[v]) ==> Holds(s', s.workers[v].message))
    ensures PcOk(s', v)
  {
  }

  /** When no row becomes published, references and the cleaner's verdict carry over. */
  lemma NoNewsKeepsReferences(s: State, s': State)
    requires Referenced(s) && GcOk(s) && RowsKept(s.db, s'.db)
    requires forall d :: d in s.blobs ==> d in s'.blobs && s'.blobs[d] == s.blobs[d]
    requires forall m :: IsPublished(s'.db, m) ==> IsPublished(s.db, m)
    ensures Referenced(s')
    ensures s'.gc == s.gc ==> GcOk(s')
  {
    forall m | IsPublished(s'.db, m) ensures Holds(s', m) {
      assert Holds(s, m);
    }
  }

  // ---- Private upload state -------------------------------------------------------------------------------

  lemma UploadStepKeepsInv(sha: Bytes -> Digest, s: State, m: int, step: Up.Step, uploads': map<int, Up.Upload>)
    requires UploadsOk(sha, s) && Uploads(sha, s, m, step, uploads') && Up.Trusted(sha, UploadOf(s, m), step)
    ensures UploadsOk(sha, s.(uploads := uploads'))
    ensures step.Discard? ==> uploads'[m].session == UploadOf(s, m).session
  {
    var total := Size(s.db, m);
    assert Up.Inv(sha, total, UploadOf(s, m));
    Up.StepKeepsInv(sha, total, UploadOf(s, m), step, uploads'[m]);
  }

  lemma EndSessionKeepsInv(sha: Bytes -> Digest, s: State, m: int)
    requires UploadsOk(sha, s) && IsResource(s.db, m)
    ensures UploadsOk(sha, EndSession(s, m))
  {
    assert Up.Inv(sha, Size(s.db, m), UploadOf(s, m));
  }

  lemma UploadsFollowRows(sha: Bytes -> Digest, s: State, db': Db)
    requires UploadsOk(sha, s) && RowsKept(s.db, db')
    ensures UploadsOk(sha, s.(db := db'))
  {
  }

  // ---- Steps of an idle worker ------------------------------------------------------------------------------

  lemma LocalKeepsInv(sha: Bytes -> Digest, s: State, w: nat, m: int, step: Up.Step, s': State)
    requires Inv(sha, s) && LocalStep(sha, s, w, m, step, s') && s'.blobs == s.blobs
    ensures Inv(sha, s')
  {
    UploadStepKeepsInv(sha, s, m, step, s'.uploads);
    WorkerFrameKeepsOthers(s, s', w, m);
    NoNewsKeepsReferences(s, s');
  }

  lemma HashKeepsInv(sha: Bytes -> Digest, s: State, w: nat, m: int, step: Up.Step, s': State)
    requires Inv(sha, s) && HashStep(sha, s, w, m, step, s')
    ensures Inv(sha, s')
  {
    UploadStepKeepsInv(sha, s, m, step, s'.uploads);
    WorkerFrameKeepsOthers(s, s', w, m);
    NoNewsKeepsReferences(s, s');
  }

  lemma GiveUpKeepsInv(sha: Bytes -> Digest, s: State, w: nat, m: int, s': State)
    requires EventLog.LogInv(s.db) && Inv(sha, s) && GiveUpStep(s, w, m, s')
    ensures Inv(sha, s')
  {
    EventLog.ExpireKeepsLog(s.db, [m]);
    GrowthKeepsRows(s.db, s'.db);
    EndSessionKeepsInv(sha, s, m);
    UploadsFollowRows(sha, EndSession(s, m), s'.db);
    WorkerFrameKeepsOthers(s, s', w, m);
    NoNewsKeepsReferences(s, s');
  }

  // ---- Installing the blob --------------------------------------------------------------------------------------

  /** What Link installs is the file that was hashed. */
  lemma LinkedPartIsHashed(sha: Bytes -> Digest, s: State, m: int)
    requires UploadsOk(sha, s) && Ready(s, m) && UploadOf(s, m).part.Some?
    ensures sha(UploadOf(s, m).part.value) == Sha(s.db, m)
    ensures |UploadOf(s, m).part.value| == Size(s.db, m)
  {
    var u := UploadOf(s, m);
    assert Up.Inv(sha, Size(s.db, m), u);
    assert u.part.value == u.part.value[..|u.acked|];
  }

  lemma InstallKeepsUploads(sha: Bytes -> Digest, s: State, w: nat, step: InstallStep, s': State)
    requires UploadsOk(sha, s) && InstallNext(sha, s, w, step, s')
    ensures UploadsOk(sha, s')
    ensures UploadOf(s', s.workers[w].message).session == UploadOf(s, s.workers[w].message).session
  {
    if s'.uploads != s.uploads {
      UploadStepKeepsInv(sha, s, s.workers[w].message, Up.Discard, s'.uploads);
    }
  }

  lemma InstallFrame(sha: Bytes -> Digest, s: State, w: nat, step: InstallStep, s': State)
    requires InstallNext(sha, s, w, step, s')
    ensures WorkerFrame(s, s', w, s.workers[w].message) && s'.db == s.db && s'.challenges == s.challenges
  {
  }

  lemma InstallKeepsBlobsAndPc(sha: Bytes -> Digest, s: State, w: nat, step: InstallStep, s': State)
    requires BlobsHashed(sha, s) && UploadsOk(sha, s) && InstallNext(sha, s, w, step, s') && PcOk(s, w)
    ensures BlobsHashed(sha, s') && w < |s'.workers| && PcOk(s', w)
  {
    InstallKeepsUploads(sha, s, w, step, s');
    if step.Link? {
      LinkedPartIsHashed(sha, s, s.workers[w].message);
    }
  }

  lemma InstallKeepsLock(sha: Bytes -> Digest, s: State, w: nat, step: InstallStep, s': State)
    requires LockOk(s) && InstallNext(sha, s, w, step, s')
    ensures LockOk(s')
  {
  }

  lemma InstallKeepsInv(sha: Bytes -> Digest, s: State, w: nat, step: InstallStep, s': State)
    requires Inv(sha, s) && InstallNext(sha, s, w, step, s')
    ensures Inv(sha, s')
  {
    assert PcOk(s, w);
    InstallFrame(sha, s, w, step, s');
    InstallKeepsUploads(sha, s, w, step, s');
    InstallKeepsBlobsAndPc(sha, s, w, step, s');
    InstallKeepsLock(sha, s, w, step, s');
    WorkerFrameKeepsOthers(s, s', w, s.workers[w].message);
    NoNewsKeepsReferences(s, s');
  }

  // ---- Publishing --------------------------------------------------------------------------------------------------

  lemma PublishKeepsReferences(s: State, s': State, m: int)
    requires Referenced(s) && GcOk(s) && RowsKept(s.db, s'.db) && s'.blobs == s.blobs && s'.gc == s.gc
    requires forall n :: IsPublished(s'.db, n) ==> n == m || IsPublished(s.db, n)
    requires Holds(s, m) && s.gc == GcIdle
    ensures Referenced(s') && GcOk(s')
  {
    forall n | IsPublished(s'.db, n) ensures Holds(s', n) {
      assert Holds(s, n);
    }
  }

  lemma FinishFrame(sha: Bytes -> Digest, s: State, w: nat, step: FinishStep, s': State)
    requires FinishNext(sha, s, w, step, s') && s'.blobs == s.blobs
    ensures WorkerFrame(s, s', w, s.workers[w].message) && s'.challenges <= s.challenges
  {
  }

  lemma FinishKeepsUploads(sha: Bytes -> Digest, s: State, w: nat, step: FinishStep, s': State)
    requires UploadsOk(sha, s) && BlobsHashed(sha, s) && FinishNext(sha, s, w, step, s') && PcOk(s, w) && RowsKept(s.db, s'.db)
    ensures UploadsOk(sha, s')
  {
    var m := s.workers[w].message;
    if step.Restore? && step.repair.Some? {
      UploadStepKeepsInv(sha, s, m, step.repair.value, s'.uploads);
    } else if IsResource(s.db, m) {
      EndSessionKeepsInv(sha, s, m);
      UploadsFollowRows(sha, EndSession(s, m), s'.db);
      UploadsFollowRows(sha, s, s'.db);
    }
  }

  lemma FinishKeepsPc(sha: Bytes -> Digest, s: State, w: nat, step: FinishStep, s': State)
    requires FinishNext(sha, s, w, step, s') && PcOk(s, w) && RowsKept(s.db, s'.db)
    ensures w < |s'.workers| && PcOk(s', w)
  {
  }

  lemma FinishKeepsLock(sha: Bytes -> Digest, s: State, w: nat, step: FinishStep, s': State)
    requires LockOk(s) && FinishNext(sha, s, w, step, s')
    ensures LockOk(s') && (!step.ReleaseLock? ==> s.lock == ByWorker(w))
  {
  }

  lemma FinishKeepsReferences(sha: Bytes -> Digest, s: State, w: nat, step: FinishStep, s': State)
    requires EventLog.LogInv(s.db) && Inv(sha, s) && FinishNext(sha, s, w, step, s') && RowsKept(s.db, s'.db) && s'.blobs == s.blobs
    ensures Referenced(s') && GcOk(s')
  {
    FinishFrame(sha, s, w, step, s');
    FinishTables(sha, s, w, step, s');
    if step.PublishRow? {
      FinishKeepsLock(sha, s, w, step, s');
      assert PcOk(s, w);
      PublishAddsOne(s.db, s.workers[w].message, s.workers[w].sender);
      PublishKeepsReferences(s, s', s.workers[w].message);
    } else {
      NoNewsKeepsReferences(s, s');
    }
  }

  lemma FinishKeepsInv(sha: Bytes -> Digest, s: State, w: nat, step: FinishStep, s': State)
    requires EventLog.LogInv(s.db) && Inv(sha, s) && FinishNext(sha, s, w, step, s') && s'.blobs == s.blobs
    ensures Inv(sha, s')
  {
    assert PcOk(s, w);
    FinishKeepsRows(sha, s, w, step, s');
    FinishFrame(sha, s, w, step, s');
    FinishKeepsUploads(sha, s, w, step, s');
    FinishKeepsPc(sha, s, w, step, s');
    FinishKeepsLock(sha, s, w, step, s');
    FinishKeepsReferences(sha, s, w, step, s');
    WorkerFrameKeepsOthers(s, s', w, s.workers[w].message);
  }

  // ---- Instant proofs -------------------------------------------------------------------------------------------------

  /** A proof publishes only what its twin already keeps in the store. */
  lemma TwinIsHeld(s: State, m: int)
    requires Referenced(s) && HasTwin(s.db, m)
    ensures Holds(s, m)
  {
    var twin :| IsTwin(s.db, m, twin);
    assert Holds(s, twin);
  }

  function ProofMessage(s: State, w: nat, step: ProofStep): int
    requires w < |s.workers|
  {
    if step.Challenge? || step.BeginProof? then step.message
    else if s.workers[w].Idle? then 0 else s.workers[w].message
  }

  lemma ProofFrame(s: State, w: nat, step: ProofStep, s': State)
    requires ProofNext(s, w, step, s')
    ensures WorkerFrame(s, s', w, ProofMessage(s, w, step)) && s'.blobs == s.blobs
    ensures !step.ProofPublish? ==> s'.db == s.db && s'.uploads == s.uploads
    ensures step.ProofPublish? ==> s'.db == s.db || s'.db == Publish(s.db, s.workers[w].message, s.workers[w].sender).0
  {
  }

  lemma ProofKeepsPc(s: State, w: nat, step: ProofStep, s': State)
    requires ProofNext(s, w, step, s') && PcOk(s, w) && ChallengesOk(s) && RowsKept(s.db, s'.db)
    ensures w < |s'.workers| && PcOk(s', w) && ChallengesOk(s') && Owns(w, ProofMessage(s, w, step))
  {
    if step.Challenge? {
      assert IsTwin(s.db, step.message, step.twin);
    }
  }

  lemma ProofKeepsLock(s: State, w: nat, step: ProofStep, s': State)
    requires LockOk(s) && ProofNext(s, w, step, s')
    ensures LockOk(s') && (step.ProofPublish? ==> s.lock == ByWorker(w))
  {
  }

  lemma ProofKeepsUploads(sha: Bytes -> Digest, s: State, w: nat, step: ProofStep, s': State)
    requires UploadsOk(sha, s) && ProofNext(s, w, step, s') && RowsKept(s.db, s'.db)
    ensures UploadsOk(sha, s')
  {
    if step.ProofPublish? {
      EndSessionKeepsInv(sha, s, s.workers[w].message);
      UploadsFollowRows(sha, EndSession(s, s.workers[w].message), s'.db);
      UploadsFollowRows(sha, s, s'.db);
    }
  }

  lemma ProofKeepsReferences(sha: Bytes -> Digest, s: State, w: nat, step: ProofStep, s': State)
    requires EventLog.LogInv(s.db) && Inv(sha, s) && ProofNext(s, w, step, s') && RowsKept(s.db, s'.db)
    ensures Referenced(s') && GcOk(s')
  {
    ProofFrame(s, w, step, s');
    if step.ProofPublish? {
      ProofKeepsLock(s, w, step, s');
      assert PcOk(s, w);
      TwinIsHeld(s, s.workers[w].message);
      PublishAddsOne(s.db, s.workers[w].message, s.workers[w].sender);
      PublishKeepsReferences(s, s', s.workers[w].message);
    } else {
      NoNewsKeepsReferences(s, s');
    }
  }

  lemma ProofKeepsInv(sha: Bytes -> Digest, s: State, w: nat, step: ProofStep, s': State)
    requires EventLog.LogInv(s.db) && Inv(sha, s) && ProofNext(s, w, step, s')
    ensures Inv(sha, s')
  {
    assert PcOk(s, w);
    ProofFrame(s, w, step, s');
    ProofKeepsRows(s, w, step, s');
    ProofKeepsPc(s, w, step, s');
    ProofKeepsLock(s, w, step, s');
    ProofKeepsUploads(sha, s, w, step, s');
    ProofKeepsReferences(sha, s, w, step, s');
    WorkerFrameKeepsOthers(s, s', w, ProofMessage(s, w, step));
  }

  // ---- The cleaner, the other server, and crashes ---------------------------------------------------------------------------

  lemma CleanFrame(sha: Bytes -> Digest, s: State, step: GcStep, s': State)
    requires CleanNext(sha, s, step, s')
    ensures s'.db == s.db && s'.workers == s.workers && s'.challenges == s.challenges
    ensures forall n :: UploadOf(s', n).session == UploadOf(s, n).session
    ensures forall d :: d in s'.blobs ==> d in s.blobs && s'.blobs[d] == s.blobs[d]
    ensures forall d :: d in s.blobs && d !in s'.blobs ==> s.gc == GcOrphan(d)
  {
    if step.RemovePart? {
      assert s'.uploads[step.message] == UploadOf(s, step.message).(part := None);
    }
  }

  lemma CleanKeepsLockAndUploads(sha: Bytes -> Digest, s: State, step: GcStep, s': State)
    requires LockOk(s) && UploadsOk(sha, s) && CleanNext(sha, s, step, s')
    ensures LockOk(s') && UploadsOk(sha, s')
  {
    if step.RemovePart? {
      UploadStepKeepsInv(sha, s, step.message, Up.Discard, s'.uploads);
    }
  }

  lemma CleanKeepsReferences(sha: Bytes -> Digest, s: State, step: GcStep, s': State)
    requires Referenced(s) && GcOk(s) && CleanNext(sha, s, step, s')
    ensures Referenced(s') && GcOk(s')
  {
    CleanFrame(sha, s, step, s');
    forall m | IsPublished(s'.db, m) ensures Holds(s', m) {
      assert Holds(s, m);
    }
  }

  /** While the cleaner may delete, no worker is between installing a blob and publishing it. */
  lemma CleanKeepsWorkers(sha: Bytes -> Digest, s: State, step: GcStep, s': State)
    requires WorkersOk(s) && LockOk(s) && CleanNext(sha, s, step, s')
    ensures WorkersOk(s')
  {
    CleanFrame(sha, s, step, s');
    forall v | 0 <= v < |s'.workers| ensures PcOk(s', v) {
      assert PcOk(s, v);
      PcFollows(s, s', v);
    }
  }

  lemma CleanKeepsInv(sha: Bytes -> Digest, s: State, step: GcStep, s': State)
    requires Inv(sha, s) && CleanNext(sha, s, step, s')
    ensures Inv(sha, s')
  {
    CleanFrame(sha, s, step, s');
    CleanKeepsLockAndUploads(sha, s, step, s');
    CleanKeepsReferences(sha, s, step, s');
    CleanKeepsWorkers(sha, s, step, s');
  }

  /** No other transaction publishes a resource. */
  lemma QuietOps(db: Db, op: Op, db': Db, m: int)
    requires EventLog.LogInv(db) && Transaction(db, op, db') && !op.PublishResource? && IsPublished(db', m)
    ensures IsPublished(db, m)
  {
  }

  lemma DatabaseKeepsInv(sha: Bytes -> Digest, s: State, op: Op, s': State)
    requires EventLog.LogInv(s.db) && Inv(sha, s) && !op.PublishResource? && Transaction(s.db, op, s'.db) && s' == s.(db := s'.db)
    ensures Inv(sha, s')
  {
    EventLog.TransactionKeepsLog(s.db, op, s'.db);
    GrowthKeepsRows(s.db, s'.db);
    forall m | IsPublished(s'.db, m) ensures IsPublished(s.db, m) {
      QuietOps(s.db, op, s'.db, m);
    }
    RowsChangeKeepsInv(sha, s, s');
  }

  lemma RowsChangeKeepsInv(sha: Bytes -> Digest, s: State, s': State)
    requires Inv(sha, s) && s' == s.(db := s'.db) && RowsKept(s.db, s'.db)
    requires forall m :: IsPublished(s'.db, m) ==> IsPublished(s.db, m)
    ensures Inv(sha, s')
  {
    UploadsFollowRows(sha, s, s'.db);
    NoNewsKeepsReferences(s, s');
    forall v | 0 <= v < |s'.workers| ensures PcOk(s', v) {
      assert PcOk(s, v);
      PcFollows(s, s', v);
    }
  }

  lemma CrashKeepsInv(sha: Bytes -> Digest, s: State, s': State)
    requires Inv(sha, s) && CrashNext(s, s')
    ensures Inv(sha, s')
  {
    NoNewsKeepsReferences(s, s');
  }

  // ---- Theorems ---------------------------------------------------------------------------------------------------------

  /** As long as no action edits a part that is still linked, the invariant survives every step. */
  lemma StepKeepsInv(sha: Bytes -> Digest, s: State, action: Action, s': State)
    requires Base(s) && Inv(sha, s) && Step(sha, s, action, s') && !Hits(sha, s, action)
    ensures Inv(sha, s')
  {
    match action
    case Local(w, m, step) =>
      NoHitKeepsBlobs(sha, s, action, s');
      LocalKeepsInv(sha, s, w, m, step, s');
    case Hash(w, m, step) => HashKeepsInv(sha, s, w, m, step, s');
    case GiveUp(w, m) => GiveUpKeepsInv(sha, s, w, m, s');
    case Install(w, step) => InstallKeepsInv(sha, s, w, step, s');
    case Finish(w, step) =>
      NoHitKeepsBlobs(sha, s, action, s');
      FinishKeepsInv(sha, s, w, step, s');
    case Proof(w, step) => ProofKeepsInv(sha, s, w, step, s');
    case Clean(step) => CleanKeepsInv(sha, s, step, s');
    case Database(op) => DatabaseKeepsInv(sha, s, op, s');
    case ProcessCrash => CrashKeepsInv(sha, s, s');
  }

  lemma {:induction false} RunKeepsInv(sha: Bytes -> Digest, states: seq<State>, actions: seq<Action>, i: nat)
    requires IsRun(sha, states, actions) && i < |states| && HitFree(sha, states, actions, i)
    ensures Inv(sha, states[i])
  {
    if i > 0 {
      HitFreePrefix(sha, states, actions, i, i - 1);
      RunKeepsInv(sha, states, actions, i - 1);
      RunKeepsBase(sha, states, actions, i - 1);
      assert !Hits(sha, states[i - 1], actions[i - 1]);
      StepKeepsInv(sha, states[i - 1], actions[i - 1], states[i]);
    }
  }

  /** In every interleaving of uploads, instant proofs, cleaning, crashes and failing or unconfirmed
      calls in which no truncation or write hits a part still linked to a blob: every blob hashes to
      its name, and every published resource has a blob of its digest with exactly its declared
      size.  Nothing is assumed about the hash function. */
  lemma PublishedContentIsStored(sha: Bytes -> Digest, states: seq<State>, actions: seq<Action>, i: nat)
    requires IsRun(sha, states, actions) && i < |states| && HitFree(sha, states, actions, i)
    ensures forall d :: d in states[i].blobs ==> sha(states[i].blobs[d]) == d
    ensures forall m :: IsPublished(states[i].db, m) ==>
              && Sha(states[i].db, m) in states[i].blobs
              && |states[i].blobs[Sha(states[i].db, m)]| == Size(states[i].db, m)
  {
    RunKeepsInv(sha, states, actions, i);
    forall m | IsPublished(states[i].db, m) ensures Holds(states[i], m) {
    }
  }

  /** The cleaner never removes a published blob, and no step but a hit on this very blob changes it. */
  lemma PublishedBlobChangesIff(sha: Bytes -> Digest, states: seq<State>, actions: seq<Action>, i: nat, m: int)
    requires IsRun(sha, states, actions) && i < |actions| && HitFree(sha, states, actions, i) && IsPublished(states[i].db, m)
    ensures var d := Sha(states[i].db, m);
            && d in states[i].blobs && d in states[i + 1].blobs
            && (states[i + 1].blobs[d] != states[i].blobs[d] <==> HitsBlob(sha, states[i], actions[i], d))
  {
    RunKeepsInv(sha, states, actions, i);
    RunKeepsBase(sha, states, actions, i);
    assert Step(sha, states[i], actions[i], states[i + 1]);
    assert Holds(states[i], m);
    BlobIsRewrittenIff(sha, states[i], actions[i], states[i + 1], Sha(states[i].db, m));
  }

  /** Message m is published in both states, with the same digest and the same bytes. */
  ghost predicate SameContent(s: State, t: State, m: int) {
    && IsPublished(s.db, m) && IsPublished(t.db, m) && Sha(t.db, m) == Sha(s.db, m)
    && Sha(s.db, m) in s.blobs && Sha(s.db, m) in t.blobs
    && t.blobs[Sha(s.db, m)] == s.blobs[Sha(s.db, m)]
  }

  lemma StaysPublished(sha: Bytes -> Digest, states: seq<State>, actions: seq<Action>, k: nat, m: int)
    requires IsRun(sha, states, actions) && k < |actions| && HitFree(sha, states, actions, k + 1) && IsPublished(states[k].db, m)
    ensures SameContent(states[k], states[k + 1], m)
  {
    HitFreePrefix(sha, states, actions, k + 1, k);
    PublishedBlobChangesIff(sha, states, actions, k, m);
    assert !Hits(sha, states[k], actions[k]);
    RunKeepsBase(sha, states, actions, k);
    StepKeepsRows(sha, states[k], actions[k], states[k + 1]);
  }

  lemma HeldNow(sha: Bytes -> Digest, states: seq<State>, actions: seq<Action>, i: nat, m: int)
    requires IsRun(sha, states, actions) && i < |states| && HitFree(sha, states, actions, i) && IsPublished(states[i].db, m)
    ensures SameContent(states[i], states[i], m)
  {
    PublishedContentIsStored(sha, states, actions, i);
  }

  lemma {:induction false} ContentChains(states: seq<State>, i: nat, j: nat, m: int)
    requires i <= j < |states| && SameContent(states[i], states[i], m)
    requires forall k :: i <= k < j && IsPublished(states[k].db, m) ==> SameContent(states[k], states[k + 1], m)
    ensures SameContent(states[i], states[j], m)
    decreases j
  {
    if i < j {
      ContentChains(states, i, j - 1, m);
    }
  }

  /** Once a resource is published its bytes stay the same up to the first hit. */
  lemma PublishedContentIsForever(sha: Bytes -> Digest, states: seq<State>, actions: seq<Action>, i: nat, j: nat, m: int)
    requires IsRun(sha, states, actions) && i <= j < |states| && HitFree(sha, states, actions, j) && IsPublished(states[i].db, m)
    ensures SameContent(states[i], states[j], m)
  {
    HitFreePrefix(sha, states, actions, j, i);
    HeldNow(sha, states, actions, i, m);
    forall k | i <= k < j && IsPublished(states[k].db, m) ensures SameContent(states[k], states[k + 1], m) {
      HitFreePrefix(sha, states, actions, j, k + 1);
      StaysPublished(sha, states, actions, k, m);
    }
    ContentChains(states, i, j, m);
  }

  /** restore_part_after_publish_failure compares only lengths before it copies a blob back.  Without
      a hit that is enough: the copy always matches the cached whole-file digest. */
  lemma CopyBackIsTrusted(sha: Bytes -> Digest, states: seq<State>, actions: seq<Action>, i: nat, w: nat)
    requires IsRun(sha, states, actions) && i < |states| && HitFree(sha, states, actions, i)
    requires w < |states[i].workers| && states[i].workers[w].Restoring?
    ensures var s, m := states[i], states[i].workers[w].message;
            && IsResource(s.db, m) && UploadOf(s, m).session.Some?
            && UploadOf(s, m).session.value.received == Size(s.db, m)
            && (Sha(s.db, m) in s.blobs ==> UploadOf(s, m).session.value.finalHex == Some(sha(s.blobs[Sha(s.db, m)])))
  {
    RunKeepsInv(sha, states, actions, i);
    var s := states[i];
    assert PcOk(s, w);
    assert Up.Inv(sha, Size(s.db, s.workers[w].message), UploadOf(s, s.workers[w].message));
  }
}
