/** server/ResourceServer/src/FileWorker.cpp: how a worker takes the chunks of one message, installs
    the file as a blob, publishes the message, and repairs the `.part` file when it cannot tell
    whether that worked.

    The object is the slice of the worker that serves one message.  Faults are parameters; `acked`
    is the vouched content of UploadRuns and `file` the content the client is uploading.  `blobs` are
    the stored files with one name; while `linked` holds, the part is the blob's own file under a
    second name, and Store() shows it under both. */
module Completion {
  import opened Basics
  import opened UploadFile
  import opened Store
  import opened Dao
  import EventLog
  import Up = UploadRuns

  /** Which calls of restore_part_after_publish_failure fail.  `copied` is what a failing copy
      leaves behind, None when not even the file was created. */
  datatype RestoreFaults = RestoreFaults(partStat: bool, blobStat: bool, remove: bool, copy: bool, copied: Option<nat>,
                                         copyStat: bool, recoverStat: bool, recoverResize: bool)

  /** Which calls of CompleteResourceUpload fail. */
  datatype CompletionFaults = CompletionFaults(stream: bool, read: bool, mark: Fault, removePart: bool, flush: bool,
                                               directory: bool, link: bool, unlink: bool, sync: bool,
                                               blobStat: bool, blobRead: bool, blobFlush: bool,
                                               lookup: bool, publish: seq<Fault>, restore: RestoreFaults)

  datatype TaskFaults = TaskFaults(lookup: bool, loadStat: bool, loadResize: bool, io: ChunkIo, update: bool,
                                   completion: CompletionFaults)

  const NO_RESTORE_FAULTS := RestoreFaults(false, false, false, false, None, false, false, false)
  const NO_COMPLETION_FAULTS := CompletionFaults(false, false, Clean, false, false, false, false, false, false,
                                                 false, false, false, false, [], NO_RESTORE_FAULTS)
  const NO_FAULTS := TaskFaults(false, false, false, ChunkIo(false, false, false, [], false), false, NO_COMPLETION_FAULTS)

  /** Message 1506; a status of -1 is None. */
  datatype Reply = Reply(error: ErrorCode, serverOffset: nat, status: Option<Status>, eventSeq: nat)

  function Retry(error: ErrorCode, serverOffset: nat): Reply {
    Reply(error, serverOffset, Some(Pending), 0)
  }

  function GiveUp(error: ErrorCode): Reply {
    Reply(error, 0, Some(Failed), 0)
  }

  function Refuse(error: ErrorCode, serverOffset: nat): Reply {
    Reply(error, serverOffset, None, 0)
  }

  /** The row is published and `seqNo` is the number of its event. */
  predicate PublishedAs(db: Db, message: int, seqNo: nat) {
    && message in db.messages && db.messages[message].status == Published && db.messages[message].thread in db.chats
    && EventAt(db, Recipient(db, db.messages[message]), seqNo, MessageEvent(db.messages[message].kind, message))
  }

  /** What one task may commit. */
  ghost predicate Commits(db: Db, message: int, db': Db) {
    || db' == db
    || db' == Expire(db, [message])
    || (message in db.messages && db' == Publish(db, message, db.messages[message].sender).0)
  }

  class Upload {
    const sha: Bytes -> Digest
    const message: int
    const sender: int
    const total: nat
    const declared: Digest
    const part: PartFile
    const db: Database
    var blobs: map<Digest, Bytes>
    var linked: bool
    var session: Option<Up.Session>
    var mismatches: nat
    ghost var acked: Bytes
    const file: Bytes

    constructor (sha: Bytes -> Digest, message: int, resource: Resource, part: PartFile, db: Database, file: Bytes)
      requires db.Valid() && part.sha == sha && part.content == None
      requires message in db.messages && db.messages[message].resource == Some(resource)
      ensures Valid() && Backed() && this.part == part && this.db == db && this.file == file
      ensures this.message == message && this.sender == db.messages[message].sender && this.sha == sha && this.total == resource.size && this.declared == resource.sha
      ensures |file| == resource.size && sha(file) == resource.sha ==> Honest()
    {
      this.sha, this.message, this.total, this.declared := sha, message, resource.size, resource.sha;
      this.sender := db.messages[message].sender;
      this.part, this.db, this.blobs, this.linked, this.session, this.mismatches := part, db, map[], false, None, 0;
      this.acked, this.file := [], file;
    }

    ghost function View(): Up.Upload
      reads `session, `acked, part
    {
      Up.Upload(part.content, session, acked)
    }

    /** The content-addressed store as every reader sees it. */
    function Store(): map<Digest, Bytes>
      reads `blobs, `linked, part
    {
      if linked && part.content.Some? then blobs[declared := part.content.value] else blobs
    }

    /** The tables, and the row this worker serves. */
    ghost predicate TablesValid()
      reads db
    {
      db.Valid() && RowMatches(db.View())
    }

    /** The files and the session. */
    ghost predicate DiskValid()
      reads this, part
    {
      part.sha == sha && Up.Inv(sha, total, View()) && BlobsHashed() && LinkOk()
    }

    ghost predicate LinkOk()
      reads `blobs, `linked, part
    {
      linked ==> part.content.Some? && declared !in blobs
    }

    ghost predicate Valid()
      reads this, part, db
    {
      TablesValid() && DiskValid()
    }

    ghost predicate BlobsHashed()
      reads `blobs
    {
      forall d :: d in blobs ==> sha(blobs[d]) == d
    }

    /** The worker was built from this row, whose sender and resource never change. */
    ghost predicate RowMatches(tables: Db)
   {
      && message in tables.messages && tables.messages[message].resource.Some?
      && tables.messages[message].sender == sender
      && tables.messages[message].resource.value.size == total
      && tables.messages[message].resource.value.sha == declared
    }

    /** A live session's confirmed bytes are on disk: nobody removed the file behind its back. */
    ghost predicate Backed()
      reads `session, part
    {
      session.Some? ==> session.value.received <= FileLength(part.content)
    }

    /** Everything vouched for so far is part of the client's file, which has the declared size. */
    ghost predicate Follows()
      reads `acked
    {
      |file| == total && acked <= file
    }

    /** That file is the one that the row declares. */
    ghost predicate Honest()
      reads `blobs, `acked
    {
      Follows() && sha(file) == declared && (declared in blobs ==> blobs[declared] == file)
    }

    /** Completion works on a session that holds every byte. */
    ghost predicate Complete()
      reads `session
    {
      session.Some? && session.value.received == total
    }

    // ---- Sessions -----------------------------------------------------------------------------------

    /** LoadUploadSession. */
    method LoadUploadSession(statFails: bool, resizeFails: bool) returns (ok: bool)
      requires DiskValid() && session.None?
      modifies this`session, this`mismatches, this`acked, part
      ensures DiskValid() && Up.Next(sha, total, old(View()), Up.Load(ok), View())
      ensures acked <= old(acked) && Backed()
      ensures ok == session.Some?
      ensures ok ==> session.value.received == ResumeOffset(FileLength(old(part.content)), total, Up.CHUNK)
      ensures !statFails && !resizeFails ==> ok
      ensures mismatches == if ok then 0 else old(mismatches)
      ensures Store() != old(Store()) <==> linked && ok && FileLength(old(part.content)) > 0
      ensures StoreKept()
    {
      ghost var before := View();
      Up.ReloadKeepsPart(total, before);
      var received;
      ok, received := part.Recover(total, Up.CHUNK, statFails, resizeFails);
      if ok {
        session := Some(Up.Session(received, received == 0, [], None));
        mismatches := 0;
        acked := acked[..Min(received, |acked|)];
      }
      Up.StepKeepsInv(sha, total, before, Up.Load(ok), View());
      EditsThroughLink(before, Up.Load(ok));
    }

    /** The write and the streaming hash of HandleResourceChunk. */
    method WriteChunk(offset: nat, data: Bytes, digest: Digest, io: ChunkIo, updateFails: bool) returns (code: ErrorCode)
      requires DiskValid() && session.Some?
      modifies this`session, this`acked, part
      ensures DiskValid() && Up.Next(sha, total, old(View()), Up.Chunk(offset, data, digest, io, updateFails, code), View())
    {
      ghost var before := View();
      var received;
      code, received := part.WriteUploadChunk(total, Up.CHUNK, offset, data, digest, session.value.received, io);
      ghost var step := Up.Chunk(offset, data, digest, io, updateFails, code);
      Absorb(offset, data, code, received, updateFails, step);
      acked := Up.AckedAfterChunk(acked, step, received);
      Up.StepKeepsInv(sha, total, before, step, View());
      assert linked ==> part.content.Some?;
    }

    /** The session after a chunk: a failure drops the incremental hash, an appended chunk feeds it. */
    method Absorb(offset: nat, data: Bytes, code: ErrorCode, received: nat, updateFails: bool, ghost step: Up.Step)
      requires session.Some? && step.Chunk?
      requires step.offset == offset && step.data == data && step.code == code && step.updateFails == updateFails
      modifies `session
      ensures session == Some(Up.AfterChunk(old(session).value, step, received))
    {
      var s := session.value;
      if code != Success {
        session := Some(s.(received := received, hashValid := false, finalHex := None));
      } else if offset == s.received {
        if s.hashValid && !updateFails {
          session := Some(s.(received := received, absorbed := s.absorbed + data));
        } else {
          session := Some(s.(received := received, hashValid := false));
        }
      } else {
        session := Some(s.(received := received));
      }
    }

    /** The store changes exactly when an edit in place changes a part that is the blob's own file. */
    lemma EditsThroughLink(before: Up.Upload, step: Up.Step)
      requires Up.Next(sha, total, before, step, View()) && Up.InPlace(step)
      requires linked ==> before.part.Some?
      ensures linked ==> part.content.Some?
      ensures linked ==> (part.content.value != before.part.value <==> Up.Rewrites(sha, total, before, step))
      ensures linked ==> (blobs[declared := part.content.value] != blobs[declared := before.part.value] <==> part.content.value != before.part.value)
    {
      if linked {
        Up.RewritesIff(sha, total, before, step, View());
        assert blobs[declared := part.content.value][declared] == part.content.value;
        assert blobs[declared := before.part.value][declared] == before.part.value;
      }
    }

    /** Unlinks the part's name.  A blob that shared its file keeps the bytes the part had. */
    method RemovePart()
      requires LinkOk()
      modifies this`blobs, this`linked, part
      ensures part.content == None && !linked && Store() == old(Store())
      ensures blobs == old(Store())
    {
      if linked {
        blobs := blobs[declared := part.content.value];
        linked := false;
      }
      part.content := None;
    }

    // ---- Completion ---------------------------------------------------------------------------------

    /** The whole-file hash: cached, streamed, or read back from the disk. */
    method FullHash(streamFails: bool, readFails: bool) returns (hash: Option<Digest>)
      requires DiskValid() && Complete()
      modifies this`session
      ensures DiskValid() && Up.Next(sha, total, old(View()), Up.Finalize(streamFails, readFails), View())
      ensures session.Some? && session.value == old(session.value).(finalHex := hash)
      ensures hash.Some? ==> hash.value == sha(acked) && |acked| == total
      ensures Complete() && Backed() == old(Backed())
      ensures old(Backed()) && !streamFails && !readFails && total > 0 ==> hash.Some?
    {
      ghost var before := View();
      var s := session.value;
      hash := s.finalHex;
      if hash.None? {
        if s.hashValid && !streamFails {
          hash := Some(sha(s.absorbed));
        }
        if hash.None? && part.content.Some? && !readFails {
          hash := Some(sha(part.content.value));
        }
      }
      session := Some(s.(finalHex := hash));
      Up.StepKeepsInv(sha, total, before, Up.Finalize(streamFails, readFails), View());
    }

    /** A whole-file mismatch: start over twice, give up the third time.  Removing a part that is
        still linked leaves its bytes, which are not the declared ones, under the blob's name. */
    method OnMismatch(f: CompletionFaults) returns (reply: Reply)
      requires Valid() && Complete() && session.value.finalHex.Some?
      modifies this`blobs, this`linked, this`session, this`mismatches, this`acked, part, db
      ensures TablesValid() && (DiskValid() || old(linked))
      ensures Commits(old(db.View()), message, db.View())
      ensures Store() == old(Store()) && acked <= old(acked) && (linked ==> old(linked))
      ensures Mismatched(old(mismatches), old(db.View()), f, reply)
      ensures part.content == None || (part.content == old(part.content) && session in {None, old(session)})
      ensures old(Backed()) ==> Backed()
    {
      mismatches := mismatches + 1;
      if mismatches >= 3 {
        reply := StopUpload(f);
      } else {
        reply := StartOver(f);
      }
    }

    /** The answer to a mismatch after `count` earlier ones: the first two start the upload over, the third one fails the row and ends the session;
        a part that cannot be removed or a row that cannot be marked leaves everything for a retry. */
    ghost predicate Mismatched(count: nat, before: Db, f: CompletionFaults, reply: Reply)
      reads `mismatches, `session, part, db
    {
      && mismatches == count + 1 && message in before.messages && message in db.messages
      && if count < 2 then
           && db.View() == before
           && if f.removePart
              then reply == Retry(FileWritePermissionFailed, total) && Complete()
              else reply == Retry(FileContentMismatch, 0) && session == Some(Up.Session(0, true, [], None)) && part.content == None
         else if f.mark == Clean && before.messages[message].status == Pending then
           && reply == GiveUp(ResourceStateInvalid) && db.messages[message].status == Failed && session == None
           && (!f.removePart ==> part.content == None)
         else
           && reply == Retry(RPCFailed, total) && Complete()
           && (before.messages[message].status != Pending ==> db.View() == before)
    }

    method MarkFailed(fault: Fault) returns (marked: bool)
      requires TablesValid()
      modifies db
      ensures TablesValid()
      ensures db.View() == old(db.View()) || db.View() == Expire(old(db.View()), [message])
      ensures marked <==> fault == Clean && old(db.messages)[message].status == Pending
      ensures marked ==> db.messages[message].status == Failed
      ensures old(db.messages)[message].status != Pending ==> db.View() == old(db.View())
    {
      ExpiryKeepsRow(db.View());
      if db.messages[message].status != Pending {
        ExpiryOfFinalRow(db.View());
      }
      marked := db.MarkResourceFailed(message, fault);
    }

    /** For a row that is already final the client is told that the message is still pending. */
    method StopUpload(f: CompletionFaults) returns (reply: Reply)
      requires Valid() && session.Some?
      modifies this`blobs, this`linked, this`session, part, db
      ensures TablesValid() && (DiskValid() || old(linked))
      ensures Store() == old(Store()) && (linked ==> old(linked))
      ensures db.View() == old(db.View()) || db.View() == Expire(old(db.View()), [message])
      ensures if f.mark == Clean && old(db.messages)[message].status == Pending
              then reply == GiveUp(ResourceStateInvalid) && session == None && db.messages[message].status == Failed
                   && part.content == if f.removePart then old(part.content) else None
              else reply == Retry(RPCFailed, old(session.value.received)) && session == old(session) && part.content == old(part.content)
      ensures old(db.messages)[message].status != Pending ==> db.View() == old(db.View())
    {
      var marked := MarkFailed(f.mark);
      if !marked {
        return Retry(RPCFailed, session.value.received);
      }
      AbandonPart(f.removePart);
      return GiveUp(ResourceStateInvalid);
    }

    method AbandonPart(removeFails: bool)
      requires DiskValid()
      modifies this`blobs, this`linked, this`session, part
      ensures DiskValid() || old(linked)
      ensures Store() == old(Store()) && (linked ==> old(linked)) && session.None?
      ensures part.content == if removeFails then old(part.content) else None
    {
      if !removeFails {
        RemovePart();
      }
      session := None;
    }

    method StartOver(f: CompletionFaults) returns (reply: Reply)
      requires DiskValid() && Complete() && session.value.finalHex.Some?
      modifies this`blobs, this`linked, this`session, this`acked, part
      ensures DiskValid() || (old(linked) && !f.removePart)
      ensures Store() == old(Store()) && (linked ==> old(linked))
      ensures if f.removePart
              then session == old(session) && acked == old(acked) && part.content == old(part.content)
                   && reply == Retry(FileWritePermissionFailed, total)
              else session == Some(Up.Session(0, true, [], None)) && acked == [] && part.content == None
                   && reply == Retry(FileContentMismatch, 0)
    {
      if f.removePart {
        return Retry(FileWritePermissionFailed, session.value.received);
      }
      ghost var before := View();
      RemovePart();
      session := Some(Up.Session(0, true, [], None));
      acked := [];
      Up.StepKeepsInv(sha, total, before, Up.Restart, View());
      return Retry(FileContentMismatch, 0);
    }

    lemma ExpiryOfFinalRow(tables: Db)
      requires message in tables.messages && tables.messages[message].status != Pending
      ensures Expire(tables, [message]) == tables
    {
      var after := Expire(tables, [message]);
      assert after.messages == tables.messages;
    }

    lemma ExpiryKeepsRow(tables: Db)
      requires RowMatches(tables)
      ensures RowMatches(Expire(tables, [message]))
    {
    }

    /** DurableRename without replacement, and the proof that an existing blob can be trusted.  When
        the part's own name cannot be unlinked, the two names stay one file. */
    method Install(f: CompletionFaults) returns (installed: bool)
      requires DiskValid() && Complete() && session.value.finalHex == Some(declared)
      modifies this`blobs, this`linked, part
      ensures DiskValid()
      ensures Store() == old(Store()) || (declared !in old(Store()) && Store() == old(Store())[declared := acked])
      ensures part.content == old(part.content) || part.content == None
      ensures part.content != old(part.content) ==> IsInstalled()
      ensures linked ==> IsInstalled()
      ensures linked && !old(linked) ==> !installed && f.unlink && declared !in old(Store())
      ensures installed ==> IsInstalled()
      ensures installed ==> part.content == if declared in old(Store()) && f.removePart then old(part.content) else None
      ensures declared !in old(Store()) && old(part.content).Some? && !f.directory && !f.link ==>
                && IsInstalled() && installed == (!f.unlink && !f.sync) && linked == f.unlink
                && part.content == if f.unlink then old(part.content) else None
      ensures f == NO_COMPLETION_FAULTS && old(part.content).Some? && old(Honest()) ==> installed
      ensures old(Honest()) ==> Honest()
    {
      ghost var before := View();
      Up.StepKeepsInv(sha, total, before, Up.Discard, before.(part := None));
      assert part.content.Some? ==> part.content.value == acked by {
        assert part.content.Some? ==> part.content.value == part.content.value[..|acked|];
      }
      if f.directory {
        return false;
      }
      if declared in Store() && !f.link {
        var lengthOk := !f.blobStat && |Store()[declared]| == total;
        var hashOk := lengthOk && !f.blobRead && sha(Store()[declared]) == declared;
        if !lengthOk || !hashOk || f.blobFlush {
          return false;
        }
        if !f.removePart {
          RemovePart();
        }
        return true;
      }
      if part.content.None? || f.link {
        return false;
      }
      if f.unlink {
        linked := true;
        return false;
      }
      blobs := blobs[declared := part.content.value];
      part.content := None;
      return !f.sync;
    }

    /** The declared digest is in the store with the declared size. */
    ghost predicate IsInstalled()
      reads `blobs, `linked, part
    {
      declared in Store() && |Store()[declared]| == total
    }

    /** Rolls the file back to what its length can prove and drops the session.  A part that is still
        linked takes the blob along. */
    method RollBackPart(statFails: bool, resizeFails: bool) returns (offset: nat)
      requires Up.PartInv(total, View()) && LinkOk()
      modifies this`session, this`acked, part
      ensures Up.PartInv(total, View()) && LinkOk() && session.None?
      ensures offset <= FileLength(part.content) && acked <= old(acked)
      ensures Reported(offset)
      ensures part.content.Some? ==> old(part.content).Some? && part.content.value <= old(part.content).value
      ensures Store() != old(Store()) <==> linked && part.content != old(part.content)
    {
      Up.ReloadKeepsPart(total, View());
      ResumeOffsetBounds(FileLength(part.content), total, Up.CHUNK);
      session := None;
      ghost var before := part.content;
      var ok;
      ok, offset := part.Recover(total, Up.CHUNK, statFails, resizeFails);
      if ok {
        acked := acked[..offset];
      }
      if linked {
        assert blobs[declared := part.content.value][declared] == part.content.value;
        assert blobs[declared := before.value][declared] == before.value;
      }
    }

    /** restore_part_after_publish_failure.  Only a roll-back of a part that is still linked changes
        the store. */
    method RestorePart(f: RestoreFaults) returns (offset: nat)
      requires DiskValid() && Complete() && session.value.finalHex == Some(declared)
      modifies this`blobs, this`linked, this`session, this`acked, part
      ensures DiskValid() && Backed()
      ensures offset <= FileLength(part.content) && Reported(offset)
      ensures session.None? || (session == old(session) && offset == total)
      ensures acked <= old(acked) || (declared in old(Store()) && acked <= old(Store())[declared])
      ensures linked ==> old(linked)
      ensures !linked ==> Store() == old(Store())
      ensures Store().Keys == old(Store()).Keys && forall d :: d in Store() && d != declared ==> Store()[d] == old(Store())[d]
      ensures f == NO_RESTORE_FAULTS && (FileLength(old(part.content)) == total || old(IsInstalled())) ==> offset == total && Store() == old(Store())
      ensures old(Honest()) ==> Honest()
    {
      assert old(Honest()) ==> acked == file;
      if !f.partStat && FileLength(part.content) == total {
        return total;
      }
      if declared in Store() && !f.blobStat && |Store()[declared]| == total {
        var full := CopyBlob(f);
        if full && !f.copyStat {
          return total;
        }
      }
      offset := RollBackPart(f.recoverStat, f.recoverResize);
    }

    /** Removes the damaged `.part` and copies the blob over it; says whether both calls reported
        success. */
    method CopyBlob(f: RestoreFaults) returns (full: bool)
      requires DiskValid() && Complete() && session.value.finalHex == Some(declared) && IsInstalled()
      modifies this`blobs, this`linked, this`session, this`acked, part
      ensures Up.PartInv(total, View()) && BlobsHashed() && LinkOk() && part.sha == sha
      ensures Store() == old(Store()) && (linked ==> old(linked))
      ensures full ==> DiskValid() && session == old(session) && part.content == Some(old(Store())[declared])
      ensures acked <= old(acked) || acked <= old(Store())[declared]
      ensures f == NO_RESTORE_FAULTS ==> full
    {
      var source := Store()[declared];
      assert sha(source) == declared by {
        if linked {
          assert source == source[..|acked|];
        }
      }
      if f.remove && part.content.Some? {
        return false;
      }
      ghost var before := View();
      RemovePart();
      if !f.copy {
        part.content := Some(source);
        acked := source;
        Up.StepKeepsInv(sha, total, before, Up.CopyBack(source, total, false), View());
        return true;
      }
      if f.copied.None? {
        return false;
      }
      var copied := Min(f.copied.value, total);
      if copied == total {
        part.content := Some(source);
        acked := source;
        Up.StepKeepsInv(sha, total, before, Up.CopyBack(source, total, false), View());
        return false;
      }
      part.content := Some(source[..copied]);
      session := None;
      ResumeOffsetBounds(copied, total, Up.CHUNK);
      acked := source[..ResumeOffset(copied, total, Up.CHUNK)];
      Up.StepKeepsInv(sha, total, before, Up.CopyBack(source, copied, false), View());
      return false;
    }

    /** An offset that a reply may name: zero, the live session's, or the length of a file that was
        rolled back to a chunk boundary and lost its session. */
    ghost predicate Reported(offset: nat)
      reads `session, part
    {
      || offset == 0
      || (session.Some? && offset == session.value.received)
      || (session.None? && offset == FileLength(part.content) && offset < total && offset % Up.CHUNK == 0)
    }

    /** The publication of an installed blob; Transient leaves open whether it was committed. */
    method PublishInstalled(f: CompletionFaults) returns (reply: Reply)
      requires Valid() && Complete() && session.value.finalHex == Some(declared) && IsInstalled()
      modifies this`blobs, this`linked, this`session, this`acked, part, db
      ensures Valid() && Backed()
      ensures Commits(old(db.View()), message, db.View())
      ensures StoreKept() && (old(Honest()) ==> Honest())
      ensures Answers(reply)
      ensures reply.status == Some(Pending) ==> reply.error == RPCFailed && reply.serverOffset <= FileLength(part.content)
      ensures reply.status == Some(Published) ==> IsInstalled() && part.content == old(part.content)
      ensures !f.lookup && f.publish == [] && old(db.messages)[message].status != Failed ==> reply.status == Some(Published)
    {
      var answer := PublishRow(f);
      if answer.None? {
        var offset := RestorePart(f.restore);
        return Retry(RPCFailed, offset);
      }
      session := None;
      return answer.value;
    }

    /** A completion is answered with a retryable error and an offset the server stands by, with
        Published and the number of the event, or with Failed; the last two end the session. */
    ghost predicate Answers(reply: Reply)
      reads `session, part, db
    {
      && reply.status in {Some(Pending), Some(Published), Some(Failed)}
      && (reply.error == Success <==> reply.status == Some(Published))
      && (reply.status == Some(Pending) ==> Reported(reply.serverOffset))
      && (reply.status == Some(Published) ==> reply.serverOffset == total && PublishedAs(db.View(), message, reply.eventSeq))
      && (reply.status == Some(Failed) ==> message in db.messages && db.messages[message].status == Failed)
      && (reply.status != Some(Pending) ==> session.None?)
    }

    /** The store only grows by the declared digest, and the only blob that may change is the declared
        one while the part is its own file. */
    twostate predicate StoreKept()
      reads `blobs, `linked, part
    {
      && old(Store()).Keys <= Store().Keys <= old(Store()).Keys + {declared}
      && forall d :: d in old(Store()) && (d != declared || !old(linked)) ==> Store()[d] == old(Store())[d]
    }

    /** The two database calls inside the critical section; None when one of them is Transient. */
    method PublishRow(f: CompletionFaults) returns (answer: Option<Reply>)
      requires TablesValid()
      modifies db
      ensures TablesValid()
      ensures Commits(old(db.View()), message, db.View())
      ensures answer.Some? ==>
                answer.value.status == Some(if old(db.messages)[message].status == Failed then Failed else Published)
      ensures answer.Some? && answer.value.status == Some(Published) ==>
                answer.value == Reply(Success, total, Some(Published), answer.value.eventSeq)
                && PublishedAs(db.View(), message, answer.value.eventSeq)
      ensures answer.Some? && answer.value.status == Some(Failed) ==>
                answer.value.error != Success && db.messages[message].status == Failed && db.View() == old(db.View())
      ensures !f.lookup && f.publish == [] ==> answer.Some?
    {
      if f.lookup {
        return None;
      }
      PublishAnswers(db.View(), message);
      var row := db.GetChatMsgById(message);
      assert Survives([], PUBLISH_RETRIES, 0);
      var reply := db.CompleteResourceUpload(message, row.value.0.sender, f.publish);
      match reply
      case Transient => return None;
      case PublishReply(result, seqNo) =>
        return Some(match result
          case NotPending => GiveUp(ResourceStateInvalid)
          case NotFound => GiveUp(MsgIdErr)
          case _ => Reply(Success, total, Some(Published), seqNo));
    }

    /** The file carries the declared hash: flush, install under the mutex, publish. */
    method InstallAndPublish(f: CompletionFaults) returns (reply: Reply)
      requires Valid() && Complete() && session.value.finalHex == Some(declared)
      modifies this`blobs, this`linked, this`session, this`acked, part, db
      ensures Valid()
      ensures Commits(old(db.View()), message, db.View())
      ensures StoreKept() && (old(Honest()) ==> Honest())
      ensures Answers(reply)
      ensures old(Backed()) ==> Backed() && (reply.status == Some(Pending) ==> reply.serverOffset <= FileLength(part.content))
      ensures reply.status == Some(Published) ==> IsInstalled() && (!f.removePart ==> part.content == None)
      ensures f == NO_COMPLETION_FAULTS && old(Honest()) && old(part.content).Some? && old(db.messages)[message].status != Failed ==>
                reply.status == Some(Published)
    {
      if f.flush {
        return Retry(FileWritePermissionFailed, session.value.received);
      }
      var installed := Install(f);
      if !installed {
        var offset := RestorePart(f.restore);
        return Retry(FileWritePermissionFailed, offset);
      }
      reply := PublishInstalled(f);
    }

    /** CompleteResourceUpload. */
    method CompleteResourceUpload(f: CompletionFaults) returns (reply: Reply)
      requires Valid() && Complete()
      modifies this`blobs, this`linked, this`session, this`mismatches, this`acked, part, db
      ensures TablesValid() && (DiskValid() || old(linked))
      ensures Commits(old(db.View()), message, db.View())
      ensures StoreKept() && (old(Honest()) ==> DiskValid() && Honest())
      ensures Answers(reply)
      ensures old(Backed()) ==> Backed() && (reply.status == Some(Pending) ==> reply.serverOffset <= FileLength(part.content))
      ensures f == NO_COMPLETION_FAULTS && old(Honest() && Backed()) && total > 0 && old(db.messages)[message].status != Failed ==>
                reply.status == Some(Published)
      ensures reply.status == Some(Published) && !f.removePart ==> part.content == None
      ensures !f.stream && !f.read && old(Backed()) && total > 0 && old(sha(acked)) != declared ==> Mismatched(old(mismatches), old(db.View()), f, reply) && Store() == old(Store())
      ensures old(sha(acked)) != declared ==> (linked ==> old(linked)) && acked <= old(acked)
    {
      var hash := FullHash(f.stream, f.read);
      assert Store() == old(Store()) && acked == old(acked) && db.View() == old(db.View());
      if hash.None? {
        return Retry(FileReadFailed, session.value.received);
      }
      assert session.value.finalHex == Some(sha(old(acked)));
      reply := FinishHashed(f);
    }

    /** The file has been hashed: publish it if the digest is the declared one. */
    method FinishHashed(f: CompletionFaults) returns (reply: Reply)
      requires Valid() && Complete() && session.value.finalHex.Some?
      modifies this`blobs, this`linked, this`session, this`mismatches, this`acked, part, db
      ensures TablesValid() && (DiskValid() || old(linked))
      ensures Commits(old(db.View()), message, db.View())
      ensures StoreKept() && (old(Honest()) ==> DiskValid() && Honest())
      ensures Answers(reply)
      ensures old(Backed()) ==> Backed() && (reply.status == Some(Pending) ==> reply.serverOffset <= FileLength(part.content))
      ensures f == NO_COMPLETION_FAULTS && old(Honest() && Backed()) && total > 0 && old(db.messages)[message].status != Failed ==>
                reply.status == Some(Published)
      ensures reply.status == Some(Published) && !f.removePart ==> part.content == None
      ensures old(session.value.finalHex) != Some(declared) ==>
                Mismatched(old(mismatches), old(db.View()), f, reply) && Store() == old(Store()) && (linked ==> old(linked)) && acked <= old(acked)
    {
      assert old(Honest()) ==> acked == file;
      if session.value.finalHex == Some(declared) {
        reply := InstallAndPublish(f);
      } else {
        reply := OnMismatch(f);
      }
    }

    /** WriteChunk, with what it means for the store and for a client that uploads `file`. */
    method StoreChunk(offset: nat, data: Bytes, digest: Digest, f: TaskFaults) returns (code: ErrorCode)
      requires DiskValid() && session.Some?
      modifies this`session, this`acked, part
      ensures DiskValid() && session.Some? && StoreKept()
      ensures Store() != old(Store()) <==> linked && Up.Rewrites(sha, total, old(View()), Up.Chunk(offset, data, digest, f.io, f.update, code))
      ensures old(Backed()) ==> Backed()
      ensures SliceOf(file, offset, data) ==> (old(Follows()) ==> Follows()) && (old(Honest()) ==> Honest())
      ensures f.io == NO_FAULTS.io && old(OwnChunk(offset, data, digest)) ==>
                if offset <= old(session).value.received
                then code == Success && session.value.received == Max(old(session).value.received, offset + |data|)
                else code == FileOffsetInvalid && session.value.received == old(session).value.received
    {
      ghost var before := View();
      code := WriteChunk(offset, data, digest, f.io, f.update);
      ghost var step := Up.Chunk(offset, data, digest, f.io, f.update, code);
      EditsThroughLink(before, step);
      ChunkKeepsAgreement(sha, total, before, step, View(), file);
      if f.io == NO_FAULTS.io && old(OwnChunk(offset, data, digest)) && offset <= before.session.value.received {
        CleanChunkIsAccepted(sha, total, before, step, View(), file);
      }
    }

    /** What handling one chunk means: the tables change by at most one transaction of this message,
        the store is kept, the reported offset is backed, a final status is true of the tables, and a
        client that sends `file` stays on track. */
    twostate predicate Handled(offset: nat, data: Bytes, reply: Reply)
      reads this, part, db
    {
      Settled(reply) && (old(Honest()) && SliceOf(file, offset, data) ==> DiskValid() && Honest())
    }

    twostate predicate Settled(reply: Reply)
      reads this, part, db
    {
      && Commits(old(db.View()), message, db.View())
      && StoreKept()
      && (old(Backed()) ==> Backed() && (reply.status in {None, Some(Pending)} ==> reply.serverOffset <= FileLength(part.content)))
      && (reply.status in {None, Some(Pending)} ==> Reported(reply.serverOffset))
      && (reply.status == Some(Published) ==>
            reply.error == Success && reply.serverOffset == total && PublishedAs(db.View(), message, reply.eventSeq))
      && (reply.error == Success && reply.status == Some(Pending) ==> db.View() == old(db.View()))
      && (reply.status == Some(Failed) ==> message in db.messages && db.messages[message].status == Failed)
      && (reply.status in {Some(Published), Some(Failed)} ==> session.None?)
    }

    /** What becomes of the client's own chunk when nothing fails: an evicted upload that is already
        published says so, a chunk past the frontier is refused with the frontier, any other one gets
        through. */
    twostate predicate GetsThrough(offset: nat, data: Bytes, reply: Reply)
      reads this, part, db
    {
      var frontier := old(Frontier());
      var received := Max(frontier, offset + |data|);
      if old(session.None?) && message in old(db.messages) && old(db.messages)[message].status == Published then
        reply.status == Some(Published)
      else if offset > frontier then
        && reply == Refuse(FileOffsetInvalid, frontier) && session.Some? && session.value.received == frontier
        && db.View() == old(db.View())
      else if received == total then reply.status == Some(Published)
      else session.Some? && session.value.received == received && reply == Reply(Success, received, Some(Pending), 0)
    }

    /** What becomes of a client's own chunk that is written without a fault, when the server stood at
        `frontier` after `count` mismatches: past the frontier it is refused with the frontier, before the
        end of the file it is accepted, and at the end an honest file is published and one with another
        hash is a mismatch. */
    ghost predicate Taken(frontier: nat, count: nat, before: Db, honest: bool, offset: nat, data: Bytes, f: CompletionFaults, reply: Reply)
      reads this, part, db
    {
      var received := Max(frontier, offset + |data|);
      if offset > frontier then
        && reply == Refuse(FileOffsetInvalid, frontier) && session.Some? && session.value.received == frontier
        && db.View() == before
      else if received != total then
        && reply == Reply(Success, received, Some(Pending), 0) && session.Some? && session.value.received == received
        && db.View() == before && mismatches == count && Follows()
      else
        && (f == NO_COMPLETION_FAULTS && honest && message in before.messages && before.messages[message].status != Failed ==>
              reply.status == Some(Published))
        && (!f.stream && !f.read && sha(file) != declared ==> Mismatched(count, before, f, reply))
    }

    /** The file has another hash, and this will be found out without a fault. */
    predicate IsWrong(f: TaskFaults) {
      f.io == NO_FAULTS.io && !f.completion.stream && !f.completion.read && sha(file) != declared
    }

    /** HandleResourceChunk with a session at hand. */
    method TakeChunk(offset: nat, data: Bytes, digest: Digest, f: TaskFaults, ghost honest: bool) returns (reply: Reply)
      requires Valid() && session.Some? && (honest ==> Honest())
      modifies this`blobs, this`linked, this`session, this`mismatches, this`acked, part, db
      ensures TablesValid() && (DiskValid() || old(linked))
      ensures Handled(offset, data, reply)
      ensures f.io == NO_FAULTS.io && old(OwnChunk(offset, data, digest)) ==>
                Taken(old(session.value.received), old(mismatches), old(db.View()), honest, offset, data, f.completion, reply)
      ensures IsWrong(f) && old(OwnChunk(offset, data, digest)) && !old(linked) ==> !linked && Store() == old(Store())
    {
      ghost var own := OwnChunk(offset, data, digest);
      assert own ==> SliceOf(file, offset, data);
      var code := StoreChunk(offset, data, digest, f);
      assert own && session.value.received == total ==> acked == file by {
        assert own ==> Follows();
      }
      reply := AnswerChunk(code, f.completion);
    }

    /** The reply to a chunk that was written or refused; the last chunk completes the upload. */
    method AnswerChunk(code: ErrorCode, f: CompletionFaults) returns (reply: Reply)
      requires Valid() && session.Some?
      modifies this`blobs, this`linked, this`session, this`mismatches, this`acked, part, db
      ensures TablesValid() && (DiskValid() || old(linked)) && Settled(reply) && (old(Honest()) ==> DiskValid() && Honest())
      ensures code != Success || old(session.value.received) != total ==>
                && reply == (if code == Success then Reply(Success, old(session.value.received), Some(Pending), 0) else Refuse(code, old(session.value.received)))
                && session == old(session) && acked == old(acked) && mismatches == old(mismatches) && linked == old(linked)
                && Store() == old(Store()) && db.View() == old(db.View())
      ensures code == Success && old(session.value.received) == total > 0 && old(Backed()) ==>
                && (f == NO_COMPLETION_FAULTS && old(Honest()) && old(db.messages)[message].status != Failed ==> reply.status == Some(Published))
                && (!f.stream && !f.read && old(sha(acked)) != declared ==>
                      Mismatched(old(mismatches), old(db.View()), f, reply) && Store() == old(Store()) && (linked ==> old(linked)))
    {
      if code != Success {
        return Refuse(code, session.value.received);
      }
      if session.value.received == total {
        reply := CompleteResourceUpload(f);
        return;
      }
      return Reply(Success, session.value.received, Some(Pending), 0);
    }

    /** HandleResourceChunk after a session-cache miss. */
    method TakeFirstChunk(uid: int, offset: nat, data: Bytes, digest: Digest, f: TaskFaults) returns (reply: Reply)
      requires Valid() && session.None?
      modifies this`blobs, this`linked, this`session, this`mismatches, this`acked, part, db
      ensures TablesValid() && (DiskValid() || old(linked))
      ensures Handled(offset, data, reply)
      ensures f.io == NO_FAULTS.io && old(OwnChunk(offset, data, digest)) && Opens(uid, f) && old(db.messages)[message].status == Pending ==>
                Taken(old(Frontier()), 0, old(db.View()), old(Honest()), offset, data, f.completion, reply)
      ensures Opens(uid, f) && old(db.messages)[message].status == Published ==> reply.status == Some(Published)
      ensures Opens(uid, f) && old(db.messages)[message].status == Failed ==>
                reply == GiveUp(ResourceStateInvalid) && db.View() == old(db.View()) && View() == old(View())
      ensures uid != sender ==> Store() == old(Store()) && db.View() == old(db.View()) && reply.error in {RPCFailed, ResourceForbidden}
    {
      var refusal := OpenSession(uid, f);
      if refusal.Some? {
        return refusal.value;
      }
      reply := TakeChunk(offset, data, digest, f, old(Honest()));
    }

    /** HandleResourceChunk, for a connection that is still open. */
    method HandleResourceChunk(uid: int, offset: nat, data: Bytes, digest: Digest, f: TaskFaults) returns (reply: Reply)
      requires Valid()
      modifies this`blobs, this`linked, this`session, this`mismatches, this`acked, part, db
      ensures TablesValid() && (DiskValid() || old(linked))
      ensures uid == sender != 0 ==> Handled(offset, data, reply)
      ensures f.io == NO_FAULTS.io && uid == sender != 0 && old(session.Some? && OwnChunk(offset, data, digest)) ==>
                Taken(old(Frontier()), old(mismatches), old(db.View()), old(Honest()), offset, data, f.completion, reply)
      ensures f.io == NO_FAULTS.io && old(session.None? && OwnChunk(offset, data, digest)) && Opens(uid, f) && old(db.messages)[message].status == Pending ==>
                Taken(old(Frontier()), 0, old(db.View()), old(Honest()), offset, data, f.completion, reply)
      ensures IsWrong(f) && uid == sender != 0 && old(session.Some? && OwnChunk(offset, data, digest)) && !old(linked) ==> !linked && Store() == old(Store())
      ensures old(session.None?) && Opens(uid, f) && old(db.messages)[message].status == Published ==> reply.status == Some(Published)
      ensures old(session.None?) && Opens(uid, f) && old(db.messages)[message].status == Failed ==>
                reply == GiveUp(ResourceStateInvalid) && db.View() == old(db.View()) && View() == old(View())
      ensures uid != sender ==> Store() == old(Store()) && db.View() == old(db.View()) && reply.error in {RPCFailed, ResourceForbidden}
    {
      if session.None? {
        reply := TakeFirstChunk(uid, offset, data, digest, f);
      } else if uid == 0 || uid != sender {
        reply := Refuse(ResourceForbidden, 0);
      } else {
        reply := TakeChunk(offset, data, digest, f, Honest());
      }
    }

    /** The sender asks, and nothing fails on the way to a session. */
    predicate Opens(uid: int, f: TaskFaults) {
      !f.lookup && !f.loadStat && !f.loadResize && uid == sender != 0
    }

    /** A session-cache miss: the row decides, and a pending upload is rebuilt from the disk. */
    method OpenSession(uid: int, f: TaskFaults) returns (refusal: Option<Reply>)
      requires Valid() && session.None?
      modifies this`session, this`mismatches, this`acked, part
      ensures Valid() && Backed() && acked <= old(acked) && StoreKept()
      ensures refusal.None? <==> session.Some?
      ensures refusal.None? ==> session.value.received == old(Frontier()) && mismatches == 0
      ensures refusal.Some? ==> Store() == old(Store())
      ensures uid != sender ==> refusal.Some? && refusal.value.error in {RPCFailed, ResourceForbidden}
      ensures refusal.None? ==> uid == sender && db.messages[message].status == Pending
      ensures refusal.Some? && refusal.value.status in {None, Some(Pending)} ==> refusal.value.serverOffset == 0
      ensures refusal.Some? && refusal.value.status == Some(Published) ==>
                refusal.value.error == Success && refusal.value.serverOffset == total
                && PublishedAs(db.View(), message, refusal.value.eventSeq)
      ensures refusal.Some? && refusal.value.status == Some(Failed) ==> db.messages[message].status == Failed
      ensures Opens(uid, f) ==>
                (refusal.None? <==> db.messages[message].status == Pending)
                && (db.messages[message].status == Published ==> refusal.value.status == Some(Published))
                && (db.messages[message].status == Failed ==> refusal == Some(GiveUp(ResourceStateInvalid)) && View() == old(View()))
    {
      if f.lookup {
        return Some(Refuse(RPCFailed, 0));
      }
      PublishAnswers(db.View(), message);
      var row := db.GetChatMsgById(message);
      if uid == 0 || uid != row.value.0.sender {
        return Some(Refuse(ResourceForbidden, 0));
      }
      if row.value.0.status == Published {
        PublishedHasEvent(db.View(), message);
        return Some(Reply(Success, row.value.0.resource.value.size, Some(Published), row.value.1));
      }
      if row.value.0.status == Failed {
        return Some(GiveUp(ResourceStateInvalid));
      }
      var ok := LoadUploadSession(f.loadStat, f.loadResize);
      return if ok then None else Some(Refuse(RPCFailed, 0));
    }

    // ---- The client ---------------------------------------------------------------------------------

    /** handleResourceUploadProgress without the instant-upload challenge. */
    method HandleUploadProgress(uid: int, f: TaskFaults) returns (reply: Reply)
      requires Valid()
      modifies this`session, this`mismatches, this`acked, part
      ensures Valid() && acked <= old(acked) && (old(Backed()) ==> Backed()) && StoreKept()
      ensures reply.status == Some(Published) ==>
                reply.error == Success && reply.serverOffset == total && PublishedAs(db.View(), message, reply.eventSeq)
      ensures reply.status == Some(Pending) ==>
                reply.error == Success && session.Some? && reply.serverOffset == session.value.received
      ensures reply.status == Some(Failed) ==> session.None? && db.messages[message].status == Failed
      ensures f == NO_FAULTS && uid == sender != 0 ==> reply.status == Some(db.messages[message].status)
    {
      if f.lookup {
        return Refuse(RPCFailed, 0);
      }
      PublishAnswers(db.View(), message);
      var row := db.GetChatMsgById(message);
      if uid == 0 || uid != row.value.0.sender {
        return Refuse(ResourceForbidden, 0);
      }
      if row.value.0.status == Published {
        PublishedHasEvent(db.View(), message);
        return Reply(Success, row.value.0.resource.value.size, Some(Published), row.value.1);
      }
      if row.value.0.status == Failed {
        session := None;
        return GiveUp(ResourceStateInvalid);
      }
      if session.None? {
        var ok := LoadUploadSession(f.loadStat, f.loadResize);
        if !ok {
          return Refuse(FileWritePermissionFailed, 0);
        }
      }
      return Reply(Success, session.value.received, Some(Pending), 0);
    }

    /** A client that owns the file, on a server that has not failed its message. */
    ghost predicate OnTrack()
      reads this, part, db
    {
      && Valid() && Honest() && Backed() && HexDigests(sha) && sender != 0
      && db.messages[message].status != Failed
    }

    /** One chunk of the file, from any boundary and whatever became of the session. */
    method SendNext(offset: nat) returns (reply: Reply)
      requires OnTrack() && offset < total && offset % Up.CHUNK == 0
      modifies this`blobs, this`linked, this`session, this`mismatches, this`acked, part, db
      ensures Valid() && Honest() && Backed()
      ensures Handled(offset, file[offset..Min(offset + Up.CHUNK, total)], reply)
      ensures GetsThrough(offset, file[offset..Min(offset + Up.CHUNK, total)], reply)
      ensures reply.status != Some(Published) ==> OnTrack()
    {
      var data := file[offset..Min(offset + Up.CHUNK, total)];
      assert SliceOf(file, offset, data);
      assert OwnChunk(offset, data, sha(data));
      reply := HandleResourceChunk(sender, offset, data, sha(data), NO_FAULTS);
    }

    /** The chunk that a client sends when it is told `offset`: the next one, or the last one again
        when every byte is said to have arrived. */
    function ChunkFor(offset: nat): (start: nat)
   {
      if offset == total then ResumeOffset(total, total, Up.CHUNK) else offset
    }

    /** The chunk that a client sends for a reported offset is accepted if and only if the offset is
        zero, the session survived, or the message is already published; otherwise the reload has
        given up one more chunk and the reply says so. */
    method SendAtReported(offset: nat) returns (reply: Reply)
      requires OnTrack() && Reported(offset) && total > 0
      modifies this`blobs, this`linked, this`session, this`mismatches, this`acked, part, db
      ensures Valid() && Honest() && Backed()
      ensures reply.error == Success <==> offset == 0 || old(session.Some?) || old(db.messages)[message].status == Published
      ensures reply.error != Success ==>
                && reply == Refuse(FileOffsetInvalid, offset - Up.CHUNK) && session.Some?
                && session.value.received == offset - Up.CHUNK && OnTrack()
    {
      ResumeOffsetBounds(total, total, Up.CHUNK);
      if session.None? && offset > 0 {
        ReloadGivesUpAChunk(offset, total);
      }
      assert session.Some? ==> Up.GridPoint(session.value.received, total);
      reply := SendNext(ChunkFor(offset));
    }

    /** A client that starts at any chunk boundary, goes back when it is refused and goes on when it
        is not, reaches publication, however the session and the row stand. */
    method SendFrom(start: nat) returns (reply: Reply)
      requires OnTrack() && start < total && start % Up.CHUNK == 0
      modifies this`blobs, this`linked, this`session, this`mismatches, this`acked, part, db
      ensures Valid() && Honest()
      ensures reply == Reply(Success, total, Some(Published), reply.eventSeq)
      ensures PublishedAs(db.View(), message, reply.eventSeq)
    {
      var offset: nat := start;
      while true
        invariant OnTrack() && offset < total && offset % Up.CHUNK == 0
        decreases if session.Some? && offset <= session.value.received then 0 else 1, total - offset
      {
        assert Up.GridPoint(Frontier(), total) by { FrontierIsOnGrid(); }
        reply := SendNext(offset);
        if reply.status == Some(Published) {
          return;
        }
        offset := reply.serverOffset;
      }
    }

    lemma FrontierIsOnGrid()
      requires DiskValid()
      ensures Up.GridPoint(Frontier(), total)
    {
      ResumeOffsetBounds(FileLength(part.content), total, Up.CHUNK);
    }

    /** A failure-free round that begins at the offset of a retryable reply. */
    method ResumeFromReported(offset: nat) returns (reply: Reply)
      requires OnTrack() && Reported(offset) && total > 0
      modifies this`blobs, this`linked, this`session, this`mismatches, this`acked, part, db
      ensures Valid() && Honest()
      ensures reply == Reply(Success, total, Some(Published), reply.eventSeq)
      ensures PublishedAs(db.View(), message, reply.eventSeq)
    {
      ResumeOffsetBounds(total, total, Up.CHUNK);
      assert session.Some? ==> Up.GridPoint(session.value.received, total);
      reply := SendFrom(ChunkFor(offset));
    }

    /** A failure-free round that asks for the offset first. */
    method ResumeUpload() returns (reply: Reply)
      requires OnTrack() && total > 0
      modifies this`blobs, this`linked, this`session, this`mismatches, this`acked, part, db
      ensures Valid() && Honest()
      ensures reply == Reply(Success, total, Some(Published), reply.eventSeq)
      ensures PublishedAs(db.View(), message, reply.eventSeq)
    {
      reply := HandleUploadProgress(sender, NO_FAULTS);
      if reply.status == Some(Published) {
        return;
      }
      reply := ResumeFromReported(reply.serverOffset);
    }

    /** A client whose file has the declared size but another hash, with bytes still to send. */
    ghost predicate Mistaken()
      reads this, part, db
    {
      && Valid() && Follows() && Backed() && HexDigests(sha) && sender != 0 && sha(file) != declared
      && !linked && Unfinished() && db.messages[message].status == Pending
    }

    ghost predicate Unfinished()
      reads `session
    {
      session.Some? && session.value.received < total && session.value.received % Up.CHUNK == 0
    }

    /** Its next chunk. */
    method SendWrongChunk() returns (reply: Reply)
      requires Mistaken()
      modifies this`blobs, this`linked, this`session, this`mismatches, this`acked, part, db
      ensures Valid() && !linked && Store() == old(Store())
      ensures if reply.error == Success
              then Mistaken() && session.value.received > old(session.value.received)
                   && mismatches == old(mismatches) && db.View() == old(db.View())
              else Mismatched(old(mismatches), old(db.View()), NO_COMPLETION_FAULTS, reply)
    {
      var offset := session.value.received;
      var data := file[offset..Min(offset + Up.CHUNK, total)];
      assert OwnChunk(offset, data, sha(data));
      reply := HandleResourceChunk(sender, offset, data, sha(data), NO_FAULTS);
    }

    /** A whole round of it ends in a mismatch. */
    method SendWrongFile() returns (reply: Reply)
      requires Mistaken()
      modifies this`blobs, this`linked, this`session, this`mismatches, this`acked, part, db
      ensures Valid() && !linked && Store() == old(Store())
      ensures Mismatched(old(mismatches), old(db.View()), NO_COMPLETION_FAULTS, reply)
    {
      reply := SendWrongChunk();
      while reply.error == Success
        invariant Valid() && !linked && Store() == old(Store())
        invariant if reply.error == Success then Mistaken() && mismatches == old(mismatches) && db.View() == old(db.View())
                  else Mismatched(old(mismatches), old(db.View()), NO_COMPLETION_FAULTS, reply)
        decreases if reply.error == Success && session.Some? then total - session.value.received else -1
      {
        reply := SendWrongChunk();
      }
    }

    /** A client that keeps sending such a file is told to start over twice and then that the message has
        failed; nothing is stored and nothing is left behind. */
    method KeepSendingWrongFile() returns (replies: seq<Reply>)
      requires Mistaken() && mismatches == 0
      modifies this`blobs, this`linked, this`session, this`mismatches, this`acked, part, db
      ensures replies == [Retry(FileContentMismatch, 0), Retry(FileContentMismatch, 0), GiveUp(ResourceStateInvalid)]
      ensures message in db.messages && db.messages[message].status == Failed && session == None && part.content == None
      ensures Store() == old(Store())
    {
      var first := SendWrongFile();
      var second := SendWrongFile();
      var third := SendWrongFile();
      replies := [first, second, third];
    }

    /** Where the server will go on: at the session's offset, or at the one a reload will find. */
    ghost function Frontier(): nat
      reads `session, part
    {
      if session.Some? then session.value.received else ResumeOffset(FileLength(part.content), total, Up.CHUNK)
    }

    /** The client's own chunk at some boundary. */
    ghost predicate OwnChunk(offset: nat, data: Bytes, digest: Digest)
      reads this, part
    {
      && Follows() && Backed()
      && offset < total && offset % Up.CHUNK == 0
      && data == file[offset..Min(offset + Up.CHUNK, total)]
      && digest == sha(data) && IsSha256Hex(digest)
    }
  }

  /** A file that was rolled back to a boundary loses one more chunk when its session is rebuilt. */
  lemma ReloadGivesUpAChunk(length: nat, total: nat)
    requires length % Up.CHUNK == 0 && 0 < length <= total
    ensures ResumeOffset(length, total, Up.CHUNK) == length - Up.CHUNK
  {
    ResumeOffsetBounds(length, total, Up.CHUNK);
  }

  /** The reported offset is refused: a copy-back breaks off in the third of three chunks, the file is
      rolled back to two and two chunks are reported, and the reload keeps only one. */
  lemma ReportedOffsetIsRefused(sha: Bytes -> Digest, data: Bytes, digest: Digest)
    requires |data| == Up.CHUNK
    ensures var total, file := 3 * Up.CHUNK, Zeros(3 * Up.CHUNK);
            var full := Up.Upload(None, Some(Up.Session(total, true, file, Some(sha(file)))), file);
            var rolledBack := Up.Upload(Some(file[..2 * Up.CHUNK]), None, file[..2 * Up.CHUNK]);
            var reloaded := Up.Upload(Some(file[..Up.CHUNK]), Some(Up.Session(Up.CHUNK, false, [], None)), file[..Up.CHUNK]);
            && Up.Inv(sha, total, full)
            && Up.Next(sha, total, full, Up.CopyBack(file, 2 * Up.CHUNK + 1, true), rolledBack)
            && Up.Next(sha, total, rolledBack, Up.Load(true), reloaded)
            && Up.Next(sha, total, reloaded, Up.Chunk(2 * Up.CHUNK, data, digest, NO_FAULTS.io, false, FileOffsetInvalid), reloaded)
  {
    var file := Zeros(3 * Up.CHUNK);
    assert file[..2 * Up.CHUNK][..Up.CHUNK] == file[..Up.CHUNK];
    assert file[..Up.CHUNK][..Up.CHUNK] == file[..Up.CHUNK];
  }

  predicate SliceOf(file: Bytes, offset: nat, data: Bytes) {
    offset + |data| <= |file| && data == file[offset..offset + |data|]
  }

  function Max(a: nat, b: nat): nat {
    if a < b then b else a
  }

  lemma ChunkKeepsAgreement(sha: Bytes -> Digest, total: nat, u: Up.Upload, step: Up.Step, u': Up.Upload, file: Bytes)
    requires step.Chunk? && Up.Inv(sha, total, u) && Up.Next(sha, total, u, step, u')
    ensures u.session.value.received <= FileLength(u.part) ==> u'.session.value.received <= FileLength(u'.part)
    ensures u.acked <= file && SliceOf(file, step.offset, step.data) ==> u'.acked <= file
  {
    var received := u.session.value.received;
    if u.acked <= file && SliceOf(file, step.offset, step.data) && step.code == Success && step.offset == received {
      assert u'.acked == file[..received] + file[received..received + |step.data|];
    }
  }

  /** Without faults a chunk of `file` at or below the frontier is accepted. */
  lemma CleanChunkIsAccepted(sha: Bytes -> Digest, total: nat, u: Up.Upload, step: Up.Step, u': Up.Upload, file: Bytes)
    requires step.Chunk? && Up.Inv(sha, total, u) && Up.Next(sha, total, u, step, u')
    requires u.acked <= file && u.session.value.received <= FileLength(u.part) && |file| == total
    requires step.io == NO_FAULTS.io && step.digest == sha(step.data) && IsSha256Hex(step.digest)
    requires step.offset <= u.session.value.received && step.offset < total && step.offset % Up.CHUNK == 0
    requires step.data == file[step.offset..Min(step.offset + Up.CHUNK, total)]
    ensures step.code == Success && u'.session.value.received == Max(u.session.value.received, step.offset + |step.data|)
  {
    var received, end := u.session.value.received, step.offset + |step.data|;
    assert |step.data| == Min(Up.CHUNK, total - step.offset);
    if step.offset < received {
      assert end <= received;
      PrefixSlice(u.part.value, u.acked, step.offset, end);
      PrefixSlice(file, u.acked, step.offset, end);
    }
  }

  lemma PrefixSlice(all: Bytes, prefix: Bytes, i: nat, j: nat)
    requires prefix <= all && i <= j <= |prefix|
    ensures all[i..j] == prefix[i..j]
  {
    assert prefix == all[..|prefix|];
  }

  lemma PublishedHasEvent(db: Db, message: int)
    requires EventLog.LogInv(db) && message in db.messages && db.messages[message].status == Published
    requires db.messages[message].thread in db.chats
    ensures PublishedAs(db, message, EventSeqOf(db, Recipient(db, db.messages[message]), MessageEvent(db.messages[message].kind, message)))
  {
    var m := db.messages[message];
    var event := MessageEvent(m.kind, message);
    assert EventLog.Logged(db, Recipient(db, m), event);
    var k :| EventAt(db, Recipient(db, m), k, event);
    assert k > 0;
  }

  /** For a resource row the transaction publishes, repeats the number it published before, or
      finds the row failed. */
  lemma PublishAnswers(db: Db, message: int)
    requires EventLog.LogInv(db) && message in db.messages && db.messages[message].resource.Some?
    ensures db.messages[message].thread in db.chats
    ensures var (db', result, seqNo) := Publish(db, message, db.messages[message].sender);
            && message in db'.messages && db'.messages[message].resource == db.messages[message].resource
            && db'.messages[message].sender == db.messages[message].sender
            && (result == NotPending <==> db.messages[message].status == Failed)
            && (result == NotPending ==> db' == db)
            && (result != NotPending ==> PublishedAs(db', message, seqNo) && result in {NowPublished, AlreadyPublished})
  {
    assert EventLog.MessageOk(db, message);
    var m := db.messages[message];
    var recipient := Recipient(db, m);
    assert recipient in db.users && recipient > 0;
    if m.status == Published {
      PublishedHasEvent(db, message);
    }
  }
}
