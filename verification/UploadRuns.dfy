/** The life of one pending upload: its `.part` file, the worker's in-memory session and every
    event that can hit them (server/ResourceServer/src/FileWorker.cpp).

    `acked` is the content the server has vouched for so far: the chunks it answered with Success,
    cut back whenever it told the client to go back.  It never influences a transition. */
module UploadRuns {
  import opened Basics
  import opened UploadFile

  /** kResourceUploadChunkSize: 256 KiB. */
  const CHUNK: nat := 262144

  datatype Session = Session(received: nat, hashValid: bool, absorbed: Bytes, finalHex: Option<Digest>)

  datatype Upload = Upload(part: Option<Bytes>, session: Option<Session>, acked: Bytes)

  datatype Step =
      /** HandleResourceChunk with a cached session. */
    | Chunk(offset: nat, data: Bytes, digest: Digest, io: ChunkIo, updateFails: bool, code: ErrorCode)
      /** LoadUploadSession after a miss; recovery itself may fail. */
    | Load(ok: bool)
      /** Idle eviction, EvictUploadSession, or a process restart between two writes. */
    | Forget
      /** The process dies inside WriteAndVerify. */
    | CrashInWrite(data: Bytes, torn: Bytes)
      /** The whole-file hash of CompleteResourceUpload, from the stream or from the disk. */
    | Finalize(streamFails: bool, readFails: bool)
      /** A whole-file mismatch restarts the upload from zero. */
    | Restart
      /** restore_part_after_publish_failure copies `copied` bytes of the blob back. */
    | CopyBack(source: Bytes, copied: nat, rolledBack: bool)
      /** The same restore when no full copy is available. */
    | RollBack(ok: bool)
      /** The part is moved into the blob store, or removed by the cleaner or by a handler. */
    | Discard

  function FreshUpload(): Upload {
    Upload(None, None, [])
  }

  /** The session after a chunk was answered with `code`. */
  function AfterChunk(s: Session, step: Step, received': nat): Session
    requires step.Chunk?
  {
    if step.code != Success then
      s.(received := received', hashValid := false, finalHex := None)
    else if step.offset == s.received && s.hashValid && !step.updateFails then
      s.(received := received', absorbed := s.absorbed + step.data)
    else if step.offset == s.received then
      s.(received := received', hashValid := false)
    else
      s.(received := received')
  }

  /** The vouched content after a chunk moved the confirmed offset to `received'`. */
  function AckedAfterChunk(acked: Bytes, step: Step, received': nat): Bytes
    requires step.Chunk?
  {
    if step.code == Success && |acked| < received' then acked + step.data
    else acked[..Min(received', |acked|)]
  }

  /** The digest that the completion point caches; None when neither source could be read. */
  function FullHash(sha: Bytes -> Digest, s: Session, part: Option<Bytes>, step: Step): Option<Digest>
    requires step.Finalize?
  {
    if s.finalHex.Some? then s.finalHex
    else if s.hashValid && !step.streamFails then Some(sha(s.absorbed))
    else if part.Some? && !step.readFails then Some(sha(part.value))
    else None
  }

  function Recovered(part: Option<Bytes>, total: nat): Option<Bytes> {
    if part.None? then None
    else
      ResumeOffsetBounds(|part.value|, total, CHUNK);
      Some(part.value[..ResumeOffset(|part.value|, total, CHUNK)])
  }

  ghost predicate Next(sha: Bytes -> Digest, total: nat, u: Upload, step: Step, u': Upload) {
    match step
    case Chunk(offset, data, digest, io, _, code) =>
      && u.session.Some?
      && u'.session.Some?
      && var received' := u'.session.value.received;
      && ChunkOutcome(sha, total, CHUNK, offset, data, digest, io,
                      u.part, u.session.value.received, u'.part, received', code)
      && u'.session.value == AfterChunk(u.session.value, step, received')
      && u'.acked == AckedAfterChunk(u.acked, step, received')
    case Load(ok) =>
      && u.session.None?
      && if !ok then u' == u else
           var resume := ResumeOffset(FileLength(u.part), total, CHUNK);
           u' == Upload(Recovered(u.part, total), Some(Session(resume, resume == 0, [], None)),
                        u.acked[..Min(resume, |u.acked|)])
    case Forget => u' == u.(session := None)
    case CrashInWrite(data, torn) =>
      && u.session.Some?
      && var received := u.session.value.received;
      && OnGrid(total, CHUNK, received, data, received)
      && (u.part.Some? || received == 0)
      && var file := if u.part.Some? then u.part.value else [];
      u' == u.(session := None, part := Some(Overlay(file, received, torn[..Min(|torn|, |data|)])))
    case Finalize(_, _) =>
      && u.session.Some? && u.session.value.received == total
      && u' == u.(session := Some(u.session.value.(finalHex := FullHash(sha, u.session.value, u.part, step))))
    case Restart =>
      && u.session.Some? && u.session.value.finalHex.Some?
      && u' == Upload(None, Some(Session(0, true, [], None)), [])
    case CopyBack(source, copied, rolledBack) =>
      && u.session.Some? && u.session.value.received == |source| == total
      && copied <= |source|
      && if copied == |source| then u' == u.(part := Some(source), acked := source)
         else
           var resume := ResumeOffset(copied, total, CHUNK);
           ResumeOffsetBounds(copied, total, CHUNK);
           u' == Upload(Some(if rolledBack then source[..resume] else source[..copied]), None, source[..resume])
    case RollBack(ok) =>
      && u.session.Some?
      && if !ok then u' == u.(session := None) else
           var resume := ResumeOffset(FileLength(u.part), total, CHUNK);
           u' == Upload(Recovered(u.part, total), None, u.acked[..Min(resume, |u.acked|)])
    case Discard => u' == u.(part := None)
  }

  /** What is copied back carries the digest that the session has cached.  The code compares only the
      lengths; CasSafety.CopyBackIsTrusted says when the store guarantees the rest. */
  ghost predicate Trusted(sha: Bytes -> Digest, u: Upload, step: Step) {
    step.CopyBack? && u.session.Some? ==> u.session.value.finalHex == Some(sha(step.source))
  }

  ghost predicate IsRun(sha: Bytes -> Digest, total: nat, us: seq<Upload>, steps: seq<Step>) {
    && |us| == |steps| + 1
    && us[0] == FreshUpload()
    && forall i :: 0 <= i < |steps| ==> Next(sha, total, us[i], steps[i], us[i + 1]) && Trusted(sha, us[i], steps[i])
  }

  // ---- Changes in place ----------------------------------------------------------------------------------

  /** Steps that edit the file under its name; Restart, CopyBack and Discard give the name up. */
  predicate InPlace(step: Step) {
    step.Load? || step.Chunk? || step.CrashInWrite? || step.RollBack?
  }

  /** The guards under which such a step changes the bytes of an existing file: recovery of a
      non-empty file, a repeated chunk that differs from the disk, or a write of other bytes. */
  ghost predicate Rewrites(sha: Bytes -> Digest, total: nat, u: Upload, step: Step) {
    && u.part.Some?
    && var file := u.part.value;
    match step
    case Load(ok) => ok && file != []
    case RollBack(ok) => ok && file != []
    case CrashInWrite(data, torn) =>
      u.session.Some? && Overlay(file, u.session.value.received, torn[..Min(|torn|, |data|)]) != file
    case Chunk(offset, data, digest, io, _, _) =>
      && u.session.Some?
      && var received := u.session.value.received;
      && OnGrid(total, CHUNK, offset, data, received) && IsSha256Hex(digest) && sha(data) == digest
      && if offset < received then
           && !io.readFails && !io.truncateFails && offset + |data| <= |file|
           && sha(file[offset..offset + |data|]) != digest
         else !io.mkdirFails && Written(file, offset, data, io) != file
    case _ => false
  }

  /** What a write at the frontier leaves in the file. */
  function Written(file: Bytes, offset: nat, data: Bytes, io: ChunkIo): Bytes {
    if !io.writeFails then Overlay(file, offset, data)
    else
      var torn := Overlay(file, offset, io.torn[..Min(|io.torn|, |data|)]);
      if io.truncateFails || |torn| < offset then torn else torn[..offset]
  }

  /** The guards are exact. */
  lemma RewritesIff(sha: Bytes -> Digest, total: nat, u: Upload, step: Step, u': Upload)
    requires Next(sha, total, u, step, u') && InPlace(step) && u.part.Some?
    ensures u'.part.Some?
    ensures u'.part.value != u.part.value <==> Rewrites(sha, total, u, step)
  {
    if step.Load? || step.RollBack? {
      ResumeOffsetBounds(|u.part.value|, total, CHUNK);
    }
  }

  /** A chunk boundary of the upload, or its end. */
  predicate GridPoint(n: nat, total: nat) {
    n == total || (n < total && n % CHUNK == 0)
  }

  ghost predicate PartInv(total: nat, u: Upload) {
    && GridPoint(|u.acked|, total)
    && (u.part.Some? ==>
          && |u.acked| <= |u.part.value| <= Min(total, |u.acked| + CHUNK)
          && u.part.value[..|u.acked|] == u.acked)
  }

  ghost predicate SessionInv(sha: Bytes -> Digest, total: nat, u: Upload) {
    u.session.Some? ==>
      var s := u.session.value;
      && s.received == |u.acked|
      && (s.finalHex.None? && s.hashValid ==> s.absorbed == u.acked)
      && (s.finalHex.Some? ==> s.received == total && s.finalHex.value == sha(u.acked))
  }

  ghost predicate Inv(sha: Bytes -> Digest, total: nat, u: Upload) {
    PartInv(total, u) && SessionInv(sha, total, u)
  }

  lemma ChunkKeepsPart(sha: Bytes -> Digest, total: nat, u: Upload, step: Step, u': Upload)
    requires Inv(sha, total, u) && Next(sha, total, u, step, u') && step.Chunk?
    ensures PartInv(total, u')
  {
    var received, received' := u.session.value.received, u'.session.value.received;
    var Chunk(offset, data, digest, io, _, code) := step;
    if !OnGrid(total, CHUNK, offset, data, received) || !IsSha256Hex(digest) || sha(data) != digest {
      assert u'.acked == u.acked;
    } else if offset < received {
      if received' == received {
        assert u'.acked == u.acked;
      } else {
        assert u'.part.value == u.part.value[..offset] && u'.acked == u.acked[..offset];
      }
    } else {
      AppendKeepsPart(total, u, step, u');
    }
  }

  lemma AppendKeepsPart(total: nat, u: Upload, step: Step, u': Upload)
    requires PartInv(total, u) && u.session.Some? && u.session.value.received == |u.acked|
    requires step.Chunk? && u'.session.Some?
    requires OnGrid(total, CHUNK, step.offset, step.data, |u.acked|) && step.offset == |u.acked|
    requires AppendOutcome(step.offset, step.data, step.io, u.part, |u.acked|, u'.part, u'.session.value.received, step.code)
    requires u'.acked == AckedAfterChunk(u.acked, step, u'.session.value.received)
    ensures PartInv(total, u')
  {
    if step.code == Success {
      assert u'.acked == u.acked + step.data;
      var file := if u.part.Some? then u.part.value else [];
      var p := Overlay(file, step.offset, step.data);
      assert p[..|u'.acked|] == p[..step.offset] + p[step.offset..step.offset + |step.data|];
    } else {
      assert u'.acked == u.acked;
      if u'.part.Some? {
        assert u'.part.value[..|u.acked|] == u.acked;
      }
    }
  }

  lemma ChunkKeepsSession(sha: Bytes -> Digest, total: nat, u: Upload, step: Step, u': Upload)
    requires Inv(sha, total, u) && Next(sha, total, u, step, u') && step.Chunk?
    ensures SessionInv(sha, total, u')
  {
    var received, received' := u.session.value.received, u'.session.value.received;
    if step.code == Success && step.offset != received {
      assert received' == received && u'.acked == u.acked;
    }
  }

  lemma ReloadKeepsPart(total: nat, u: Upload)
    requires PartInv(total, u)
    ensures var resume := ResumeOffset(FileLength(u.part), total, CHUNK);
            && resume <= |u.acked|
            && PartInv(total, u.(part := Recovered(u.part, total), acked := u.acked[..resume]))
            && FileLength(Recovered(u.part, total)) == resume
  {
    var resume := ResumeOffset(FileLength(u.part), total, CHUNK);
    ResumeOffsetBounds(FileLength(u.part), total, CHUNK);
    if u.part.Some? {
      var p := u.part.value;
      AlignedBelow(resume, |u.acked|, |p|, total);
      assert p[..resume] == p[..|u.acked|][..resume];
    }
  }

  /** A boundary within one chunk of the file's end does not pass the vouched offset. */
  lemma AlignedBelow(resume: nat, acked: nat, length: nat, total: nat)
    requires resume % CHUNK == 0 && GridPoint(acked, total)
    requires acked <= length <= Min(total, acked + CHUNK)
    requires resume <= length && (0 < length ==> resume < length)
    ensures resume <= acked
  {
  }

  lemma CopyKeepsInv(sha: Bytes -> Digest, total: nat, u: Upload, step: Step, u': Upload)
    requires Inv(sha, total, u) && Next(sha, total, u, step, u') && step.CopyBack? && Trusted(sha, u, step)
    ensures Inv(sha, total, u')
  {
    ResumeOffsetBounds(step.copied, total, CHUNK);
    if step.copied < |step.source| {
      var resume := ResumeOffset(step.copied, total, CHUNK);
      assert step.source[..step.copied][..resume] == step.source[..resume];
      assert u'.part.value[..resume] == step.source[..resume];
    }
  }

  /** Every event keeps the file, the session and the vouched content in step. */
  lemma StepKeepsInv(sha: Bytes -> Digest, total: nat, u: Upload, step: Step, u': Upload)
    requires Inv(sha, total, u) && Next(sha, total, u, step, u') && Trusted(sha, u, step)
    ensures Inv(sha, total, u')
  {
    match step
    case Chunk(_, _, _, _, _, _) =>
      ChunkKeepsPart(sha, total, u, step, u');
      ChunkKeepsSession(sha, total, u, step, u');
    case Load(_) => ReloadKeepsPart(total, u);
    case RollBack(_) => ReloadKeepsPart(total, u);
    case CopyBack(_, _, _) => CopyKeepsInv(sha, total, u, step, u');
    case Finalize(_, _) =>
      if u.part.Some? {
        assert u.part.value == u.part.value[..|u.acked|];
      }
    case _ =>
  }

  lemma {:induction false} RunKeepsInv(sha: Bytes -> Digest, total: nat, us: seq<Upload>, steps: seq<Step>, i: nat)
    requires IsRun(sha, total, us, steps) && i < |us|
    ensures Inv(sha, total, us[i])
  {
    if i > 0 {
      RunKeepsInv(sha, total, us, steps, i - 1);
      StepKeepsInv(sha, total, us[i - 1], steps[i - 1], us[i]);
    }
  }

  // ---- Bounds and recovery -------------------------------------------------------------------

  /** Nobody takes the file away from the upload. */
  predicate WorkerOnly(step: Step) {
    !step.Discard?
  }

  lemma {:induction false} WorkerRunKeepsFile(sha: Bytes -> Digest, total: nat, us: seq<Upload>, steps: seq<Step>, i: nat)
    requires IsRun(sha, total, us, steps) && i < |us|
    requires forall j :: 0 <= j < |steps| ==> WorkerOnly(steps[j])
    ensures us[i].part.None? ==> us[i].acked == []
  {
    if i > 0 {
      RunKeepsInv(sha, total, us, steps, i - 1);
      WorkerRunKeepsFile(sha, total, us, steps, i - 1);
      if steps[i - 1].Load? {
        ReloadKeepsPart(total, us[i - 1]);
      }
    }
  }

  /** Under any mix of chunks, duplicates, torn writes, evictions, crashes, restarts and repairs the confirmed offset
      is backed by the file, the file never outgrows the declared size, and the offset stays on the
      chunk grid. */
  lemma ConfirmedOffsetIsBacked(sha: Bytes -> Digest, total: nat, us: seq<Upload>, steps: seq<Step>, i: nat)
    requires IsRun(sha, total, us, steps) && i < |us|
    requires forall j :: 0 <= j < |steps| ==> WorkerOnly(steps[j])
    ensures FileLength(us[i].part) <= total
    ensures us[i].session.Some? ==>
              && us[i].session.value.received <= FileLength(us[i].part)
              && GridPoint(us[i].session.value.received, total)
  {
    RunKeepsInv(sha, total, us, steps, i);
    WorkerRunKeepsFile(sha, total, us, steps, i);
  }

  /** A reload resumes on a chunk boundary at or below the last confirmed offset, gives up at most
      one chunk of the file, and keeps only bytes that had been confirmed. */
  lemma ReloadTrustsOnlyConfirmedBytes(sha: Bytes -> Digest, total: nat, us: seq<Upload>, steps: seq<Step>, i: nat)
    requires IsRun(sha, total, us, steps) && i < |steps| && steps[i] == Load(true)
    ensures us[i + 1].session.Some?
    ensures var received := us[i + 1].session.value.received;
            && received % CHUNK == 0
            && received <= |us[i].acked|
            && FileLength(us[i].part) <= received + CHUNK
            && FileLength(us[i + 1].part) == received
            && (us[i + 1].part.Some? ==> us[i + 1].part.value == us[i].acked[..received])
            && (us[i].part.Some? && us[i].acked != [] ==> |us[i].acked| <= received + CHUNK)
  {
    RunKeepsInv(sha, total, us, steps, i);
    RunKeepsInv(sha, total, us, steps, i + 1);
    ReloadKeepsPart(total, us[i]);
    ResumeOffsetBounds(FileLength(us[i].part), total, CHUNK);
    assert us[i + 1].acked == us[i].acked[..us[i + 1].session.value.received];
  }

  // ---- Losing the session ----------------------------------------------------------------------

  /** An eviction, a crash in the middle of a write and a roll-back, successful or not, end the session and
      leave at least the bytes that the next reload will trust. */
  lemma SessionIsLost(sha: Bytes -> Digest, total: nat, u: Upload, step: Step, u': Upload)
    requires Inv(sha, total, u) && Next(sha, total, u, step, u') && (step.Forget? || step.CrashInWrite? || step.RollBack?)
    ensures u'.session == None && u'.acked <= u.acked
    ensures u'.part.Some? ==> u'.acked <= u'.part.value
    ensures step.Forget? ==> u'.part == u.part && u'.acked == u.acked
    ensures step.CrashInWrite? ==> u'.part.Some? && u'.acked == u.acked
  {
    StepKeepsInv(sha, total, u, step, u');
  }

  // ---- Going back ------------------------------------------------------------------------------

  /** A chunk of a session on disk, sent again with the digest of its own bytes and without a fault. */
  predicate IsOwnChunk(sha: Bytes -> Digest, step: Step) {
    step.Chunk? && step.digest == sha(step.data) && !step.io.readFails && !step.io.mkdirFails && !step.io.writeFails && !step.io.truncateFails
  }

  /** A repeated chunk whose bytes differ from the confirmed ones is refused once: the upload goes back to
      its start, keeps what is before it, and takes the chunk when it is sent again. */
  lemma DifferingChunkIsReplaced(sha: Bytes -> Digest, total: nat, u: Upload, step: Step, u': Upload, again: Step, u'': Upload)
    requires Inv(sha, total, u) && Next(sha, total, u, step, u') && Next(sha, total, u', again, u'')
    requires IsOwnChunk(sha, step) && IsOwnChunk(sha, again) && again.offset == step.offset && again.data == step.data
    requires IsSha256Hex(step.digest) && OnGrid(total, CHUNK, step.offset, step.data, u.session.value.received)
    requires u.part.Some? && step.offset < u.session.value.received
    requires sha(u.part.value[step.offset..step.offset + |step.data|]) != step.digest
    ensures step.code == FileHashMismatch && u'.session.value.received == step.offset
    ensures again.code == Success && u''.session.value.received == step.offset + |step.data|
    ensures u''.part == Some(u.part.value[..step.offset] + step.data) && u''.acked == u.acked[..step.offset] + step.data
  {
    var kept := u.part.value[..step.offset];
    assert u'.part == Some(kept) && u'.acked == u.acked[..step.offset];
    assert Overlay(kept, step.offset, step.data) == kept + step.data;
  }

  // ---- Streaming hash --------------------------------------------------------------------------

  /** At every point of every run the incremental hash, the cached digest and a full re-read of the
      file agree. */
  lemma StreamingHashAgrees(sha: Bytes -> Digest, total: nat, us: seq<Upload>, steps: seq<Step>, i: nat)
    requires IsRun(sha, total, us, steps) && i < |us|
    requires us[i].session.Some? && us[i].part.Some?
    ensures var s, p := us[i].session.value, us[i].part.value;
            && s.received <= |p|
            && (s.finalHex.None? && s.hashValid ==> s.absorbed == p[..s.received])
            && (s.finalHex.None? && s.hashValid && s.received == total ==> sha(s.absorbed) == sha(p))
            && (s.finalHex.Some? ==> |p| == total && s.finalHex.value == sha(p))
  {
    RunKeepsInv(sha, total, us, steps, i);
    var s, p := us[i].session.value, us[i].part.value;
    if s.received == total {
      assert p == p[..|us[i].acked|];
    }
  }
}
