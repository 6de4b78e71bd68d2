/** What the hard link between a part file and its blob means for the bytes in the store, over every
    interleaving of CasProtocol. */
module CasLinks {
  import opened Basics
  import opened UploadFile
  import opened Store
  import EventLog
  import opened CasProtocol
  import Up = UploadRuns

  // ---- Rows ------------------------------------------------------------------------------------------------

  ghost predicate HasTwin(db: Db, m: int) {
    exists twin :: IsTwin(db, m, twin)
  }

  /** Rows keep their content, and a published row stays published. */
  ghost predicate RowsKept(db: Db, db': Db) {
    && (forall m :: IsResource(db, m) ==>
          && IsResource(db', m) && Sha(db', m) == Sha(db, m) && Size(db', m) == Size(db, m)
          && (IsPublished(db, m) ==> IsPublished(db', m)))
    && (forall m :: HasTwin(db, m) ==> HasTwin(db', m))
  }

  lemma GrowthKeepsRows(db: Db, db': Db)
    requires EventLog.Grows(db, db')
    ensures RowsKept(db, db')
  {
    forall m | IsResource(db, m)
      ensures IsResource(db', m) && db'.messages[m] == db.messages[m].(status := db'.messages[m].status)
              && (IsPublished(db, m) ==> IsPublished(db', m))
    {
      assert EventLog.MessageGrows(db.messages[m], db'.messages[m]);
    }
    forall m | HasTwin(db, m) ensures HasTwin(db', m) {
      var twin :| IsTwin(db, m, twin);
      assert IsTwin(db', m, twin);
    }
  }

  /** A publication adds one published row at most: the one it was asked for. */
  lemma PublishAddsOne(db: Db, m: int, sender: int)
    requires EventLog.LogInv(db)
    ensures EventLog.LogInv(Publish(db, m, sender).0) && RowsKept(db, Publish(db, m, sender).0)
    ensures forall n :: IsPublished(Publish(db, m, sender).0, n) ==> n == m || IsPublished(db, n)
  {
    EventLog.PublishKeepsLog(db, m, sender);
    GrowthKeepsRows(db, Publish(db, m, sender).0);
  }

  lemma FinishKeepsRows(sha: Bytes -> Digest, s: State, w: nat, step: FinishStep, s': State)
    requires EventLog.LogInv(s.db) && FinishNext(sha, s, w, step, s')
    ensures EventLog.LogInv(s'.db) && RowsKept(s.db, s'.db)
  {
    FinishTables(sha, s, w, step, s');
    if step.PublishRow? {
      PublishAddsOne(s.db, s.workers[w].message, s.workers[w].sender);
    }
  }

  lemma FinishTables(sha: Bytes -> Digest, s: State, w: nat, step: FinishStep, s': State)
    requires FinishNext(sha, s, w, step, s')
    ensures !step.PublishRow? ==> s'.db == s.db
    ensures step.PublishRow? ==>
              && w < |s.workers| && s.workers[w].Looked?
              && (s'.db == s.db || s'.db == Publish(s.db, s.workers[w].message, s.workers[w].sender).0)
  {
  }

  lemma ProofKeepsRows(s: State, w: nat, step: ProofStep, s': State)
    requires EventLog.LogInv(s.db) && ProofNext(s, w, step, s')
    ensures EventLog.LogInv(s'.db) && RowsKept(s.db, s'.db)
  {
    if step.ProofPublish? {
      PublishAddsOne(s.db, s.workers[w].message, s.workers[w].sender);
    }
  }

  lemma StepKeepsRows(sha: Bytes -> Digest, s: State, action: Action, s': State)
    requires EventLog.LogInv(s.db) && Step(sha, s, action, s')
    ensures EventLog.LogInv(s'.db) && RowsKept(s.db, s'.db)
  {
    match action
    case GiveUp(_, m) =>
      EventLog.ExpireKeepsLog(s.db, [m]);
      GrowthKeepsRows(s.db, s'.db);
    case Database(op) =>
      EventLog.TransactionKeepsLog(s.db, op, s'.db);
      GrowthKeepsRows(s.db, s'.db);
    case Finish(w, step) => FinishKeepsRows(sha, s, w, step, s');
    case Proof(w, step) => ProofKeepsRows(s, w, step, s');
    case Local(_, _, _) => assert s'.db == s.db;
    case Install(_, _) => assert s'.db == s.db;
    case Clean(_) => assert s'.db == s.db;
    case _ =>
  }

  // ---- One file with two names -------------------------------------------------------------------------------

  function PartOf(uploads: map<int, Up.Upload>, m: int): Option<Bytes> {
    if m in uploads then uploads[m].part else None
  }

  /** A linked part and the blob are one file, and no two parts share a blob. */
  ghost predicate LinksOk(db: Db, blobs: map<Digest, Bytes>, linked: set<int>, uploads: map<int, Up.Upload>) {
    && (forall m :: m in linked ==>
          && IsResource(db, m) && Sha(db, m) in blobs
          && PartOf(uploads, m) == Some(blobs[Sha(db, m)]))
    && (forall m, n :: m in linked && n in linked && Names(db, m, Sha(db, n)) ==> m == n)
  }

  /** What holds in every run, whatever happens to linked parts. */
  ghost predicate Base(s: State) {
    EventLog.LogInv(s.db) && LinksOk(s.db, s.blobs, s.linked, s.uploads)
  }

  /** Links survive everything that leaves their blobs and their parts alone. */
  lemma LinksFollow(s: State, s': State)
    requires LinksOk(s.db, s.blobs, s.linked, s.uploads) && RowsKept(s.db, s'.db) && s'.linked <= s.linked
    requires forall m :: m in s'.linked ==> PartOf(s'.uploads, m) == PartOf(s.uploads, m)
    requires forall m :: m in s'.linked && IsResource(s.db, m) && Sha(s.db, m) in s.blobs ==>
               Sha(s.db, m) in s'.blobs && s'.blobs[Sha(s.db, m)] == s.blobs[Sha(s.db, m)]
    ensures LinksOk(s'.db, s'.blobs, s'.linked, s'.uploads)
  {
  }

  /** So do they when a linked part is edited: the blob is edited with it. */
  lemma DiskKeepsLinks(sha: Bytes -> Digest, s: State, m: int, step: Up.Step, uploads': map<int, Up.Upload>)
    requires LinksOk(s.db, s.blobs, s.linked, s.uploads) && Uploads(sha, s, m, step, uploads')
    ensures var s' := OnDisk(s, m, step, uploads'); LinksOk(s'.db, s'.blobs, s'.linked, s'.uploads)
  {
    if m in s.linked && Up.InPlace(step) {
      Up.RewritesIff(sha, Size(s.db, m), UploadOf(s, m), step, uploads'[m]);
    }
  }

  lemma InstallKeepsLinks(sha: Bytes -> Digest, s: State, w: nat, step: InstallStep, s': State)
    requires LinksOk(s.db, s.blobs, s.linked, s.uploads) && InstallNext(sha, s, w, step, s')
    ensures LinksOk(s'.db, s'.blobs, s'.linked, s'.uploads)
  {
    if !step.Link? {
      assert forall n :: n in s'.linked ==> PartOf(s'.uploads, n) == PartOf(s.uploads, n);
    }
  }

  lemma FinishKeepsLinks(sha: Bytes -> Digest, s: State, w: nat, step: FinishStep, s': State)
    requires LinksOk(s.db, s.blobs, s.linked, s.uploads) && FinishNext(sha, s, w, step, s') && RowsKept(s.db, s'.db)
    ensures LinksOk(s'.db, s'.blobs, s'.linked, s'.uploads)
  {
    if step.Restore? && step.repair.Some? {
      DiskKeepsLinks(sha, s, s.workers[w].message, step.repair.value, s'.uploads);
    } else {
      LinksFollow(s, s');
    }
  }

  lemma CleanKeepsLinks(sha: Bytes -> Digest, s: State, step: GcStep, s': State)
    requires LinksOk(s.db, s.blobs, s.linked, s.uploads) && CleanNext(sha, s, step, s')
    ensures LinksOk(s'.db, s'.blobs, s'.linked, s'.uploads)
  {
    if step.RemovePart? {
      DiskKeepsLinks(sha, s, step.message, Up.Discard, s'.uploads);
    }
  }

  lemma StepKeepsLinks(sha: Bytes -> Digest, s: State, action: Action, s': State)
    requires LinksOk(s.db, s.blobs, s.linked, s.uploads) && Step(sha, s, action, s') && RowsKept(s.db, s'.db)
    ensures LinksOk(s'.db, s'.blobs, s'.linked, s'.uploads)
  {
    match action
    case Local(_, m, step) => DiskKeepsLinks(sha, s, m, step, s'.uploads);
    case Install(w, step) => InstallKeepsLinks(sha, s, w, step, s');
    case Finish(w, step) => FinishKeepsLinks(sha, s, w, step, s');
    case Clean(step) => CleanKeepsLinks(sha, s, step, s');
    case _ =>
      QuietOnDisk(sha, s, action, s');
      LinksFollow(s, s');
  }

  lemma StepKeepsBase(sha: Bytes -> Digest, s: State, action: Action, s': State)
    requires Base(s) && Step(sha, s, action, s')
    ensures Base(s')
  {
    StepKeepsRows(sha, s, action, s');
    StepKeepsLinks(sha, s, action, s');
  }

  /** Hashing, giving up, proofs, transactions and crashes touch no file. */
  lemma QuietOnDisk(sha: Bytes -> Digest, s: State, action: Action, s': State)
    requires Step(sha, s, action, s')
    requires action.Hash? || action.GiveUp? || action.Proof? || action.Database? || action.ProcessCrash?
    ensures s'.blobs == s.blobs && s'.linked == s.linked
    ensures forall m :: PartOf(s'.uploads, m) == PartOf(s.uploads, m)
  {
    if action.Proof? {
      ProofOnDisk(s, action.worker, action.proof, s');
    } else if action.Hash? {
      assert s'.uploads == s.uploads[action.message := s'.uploads[action.message]];
    }
  }

  lemma ProofOnDisk(s: State, w: nat, step: ProofStep, s': State)
    requires ProofNext(s, w, step, s')
    ensures s'.blobs == s.blobs && s'.linked == s.linked
    ensures forall m :: PartOf(s'.uploads, m) == PartOf(s.uploads, m)
  {
  }

  lemma {:induction false} RunKeepsBase(sha: Bytes -> Digest, states: seq<State>, actions: seq<Action>, i: nat)
    requires IsRun(sha, states, actions) && i < |states|
    ensures Base(states[i])
  {
    if i > 0 {
      RunKeepsBase(sha, states, actions, i - 1);
      StepKeepsBase(sha, states[i - 1], actions[i - 1], states[i]);
    }
  }

  // ---- Edits through a link ----------------------------------------------------------------------------------

  /** The upload event that an action carries out, if any. */
  function EventOf(s: State, action: Action): Option<(int, Up.Step)> {
    match action
    case Local(_, m, step) => Some((m, step))
    case Finish(w, Restore(Some(step))) => if w < |s.workers| && !s.workers[w].Idle? then Some((s.workers[w].message, step)) else None
    case _ => None
  }

  /** The action truncates or overwrites a part that is still linked to the blob `d`. */
  ghost predicate HitsBlob(sha: Bytes -> Digest, s: State, action: Action, d: Digest) {
    && EventOf(s, action).Some?
    && var (m, step) := EventOf(s, action).value;
    && m in s.linked && Names(s.db, m, d)
    && Up.Rewrites(sha, Size(s.db, m), UploadOf(s, m), step)
  }

  ghost predicate Hits(sha: Bytes -> Digest, s: State, action: Action) {
    exists d :: HitsBlob(sha, s, action, d)
  }

  lemma DiskRewritesIff(sha: Bytes -> Digest, s: State, m: int, step: Up.Step, uploads': map<int, Up.Upload>, d: Digest)
    requires LinksOk(s.db, s.blobs, s.linked, s.uploads) && Uploads(sha, s, m, step, uploads') && d in s.blobs
    ensures d in OnDisk(s, m, step, uploads').blobs
    ensures OnDisk(s, m, step, uploads').blobs[d] != s.blobs[d] <==>
              m in s.linked && Names(s.db, m, d) && Up.Rewrites(sha, Size(s.db, m), UploadOf(s, m), step)
  {
    if m in s.linked && Up.InPlace(step) {
      Up.RewritesIff(sha, Size(s.db, m), UploadOf(s, m), step, uploads'[m]);
    }
  }

  lemma FinishRewritesIff(sha: Bytes -> Digest, s: State, w: nat, step: FinishStep, s': State, d: Digest)
    requires LinksOk(s.db, s.blobs, s.linked, s.uploads) && FinishNext(sha, s, w, step, s') && d in s.blobs
    ensures d in s'.blobs
    ensures s'.blobs[d] != s.blobs[d] <==> HitsBlob(sha, s, Finish(w, step), d)
  {
    if step.Restore? && step.repair.Some? {
      DiskRewritesIff(sha, s, s.workers[w].message, step.repair.value, s'.uploads, d);
    }
  }

  lemma CleanNeverRewrites(sha: Bytes -> Digest, s: State, step: GcStep, s': State, d: Digest)
    requires CleanNext(sha, s, step, s') && d in s.blobs
    ensures d in s'.blobs ==> s'.blobs[d] == s.blobs[d]
    ensures d !in s'.blobs <==> step == GcUnlink(true) && s.gc == GcOrphan(d)
  {
  }

  lemma InstallNeverRewrites(sha: Bytes -> Digest, s: State, w: nat, step: InstallStep, s': State, d: Digest)
    requires InstallNext(sha, s, w, step, s') && d in s.blobs
    ensures d in s'.blobs && s'.blobs[d] == s.blobs[d]
  {
  }

  /** A step changes the bytes of a blob if and only if it truncates or overwrites a part that is
      still linked to it; only the cleaner removes a blob. */
  lemma BlobIsRewrittenIff(sha: Bytes -> Digest, s: State, action: Action, s': State, d: Digest)
    requires LinksOk(s.db, s.blobs, s.linked, s.uploads) && Step(sha, s, action, s') && d in s.blobs
    ensures d in s'.blobs ==> (s'.blobs[d] != s.blobs[d] <==> HitsBlob(sha, s, action, d))
    ensures d !in s'.blobs <==> action == Clean(GcUnlink(true)) && s.gc == GcOrphan(d)
  {
    match action
    case Local(_, m, step) => DiskRewritesIff(sha, s, m, step, s'.uploads, d);
    case Finish(w, step) => FinishRewritesIff(sha, s, w, step, s', d);
    case Install(w, step) => InstallNeverRewrites(sha, s, w, step, s', d);
    case Clean(step) => CleanNeverRewrites(sha, s, step, s', d);
    case _ => QuietOnDisk(sha, s, action, s');
  }

  /** Without such an edit an action that neither installs nor collects leaves the store as it is. */
  lemma NoHitKeepsBlobs(sha: Bytes -> Digest, s: State, action: Action, s': State)
    requires LinksOk(s.db, s.blobs, s.linked, s.uploads) && Step(sha, s, action, s') && !Hits(sha, s, action)
    requires action.Local? || action.Finish?
    ensures s'.blobs == s.blobs
  {
    forall d | d in s.blobs ensures d in s'.blobs && s'.blobs[d] == s.blobs[d] {
      BlobIsRewrittenIff(sha, s, action, s', d);
    }
    NoNewBlobs(sha, s, action, s');
  }

  lemma NoNewBlobs(sha: Bytes -> Digest, s: State, action: Action, s': State)
    requires LinksOk(s.db, s.blobs, s.linked, s.uploads) && Step(sha, s, action, s') && (action.Local? || action.Finish?)
    ensures forall d :: d in s'.blobs ==> d in s.blobs
  {
  }

  // ---- Runs --------------------------------------------------------------------------------------------------

  /** No action of the run, up to index n, edits a part that is still linked. */
  ghost predicate HitFree(sha: Bytes -> Digest, states: seq<State>, actions: seq<Action>, n: nat) {
    forall i :: 0 <= i < n && i < |states| && i < |actions| ==> !Hits(sha, states[i], actions[i])
  }

  lemma HitFreePrefix(sha: Bytes -> Digest, states: seq<State>, actions: seq<Action>, n: nat, k: nat)
    requires HitFree(sha, states, actions, n) && k <= n
    ensures HitFree(sha, states, actions, k)
  {
  }

  /** No blob of the run, up to index n, is rewritten. */
  ghost predicate BytesKept(states: seq<State>, n: nat) {
    forall i, d :: 0 <= i < n && i + 1 < |states| && d in states[i].blobs && d in states[i + 1].blobs ==>
      states[i + 1].blobs[d] == states[i].blobs[d]
  }

  /** The bytes in the store are kept if and only if no truncation or write hits a part that is still
      linked to a blob. */
  lemma ContentIsKeptIff(sha: Bytes -> Digest, states: seq<State>, actions: seq<Action>, n: nat)
    requires IsRun(sha, states, actions) && n <= |actions|
    ensures BytesKept(states, n) <==> HitFree(sha, states, actions, n)
  {
    if HitFree(sha, states, actions, n) {
      forall i, d | 0 <= i < n && d in states[i].blobs && d in states[i + 1].blobs
        ensures states[i + 1].blobs[d] == states[i].blobs[d]
      {
        HitIsARewrite(sha, states, actions, i, d);
        assert !Hits(sha, states[i], actions[i]);
      }
    }
    if BytesKept(states, n) {
      forall i | 0 <= i < n ensures !Hits(sha, states[i], actions[i]) {
        forall d ensures !HitsBlob(sha, states[i], actions[i], d) {
          HitIsARewrite(sha, states, actions, i, d);
        }
      }
    }
  }

  lemma HitIsARewrite(sha: Bytes -> Digest, states: seq<State>, actions: seq<Action>, i: nat, d: Digest)
    requires IsRun(sha, states, actions) && i < |actions|
    ensures HitsBlob(sha, states[i], actions[i], d) <==>
              d in states[i].blobs && d in states[i + 1].blobs && states[i + 1].blobs[d] != states[i].blobs[d]
  {
    RunKeepsBase(sha, states, actions, i);
    assert Step(sha, states[i], actions[i], states[i + 1]);
    if d in states[i].blobs {
      BlobIsRewrittenIff(sha, states[i], actions[i], states[i + 1], d);
    }
  }
}
