/** server/ResourceServer/src/ResourceUploadFile.cpp: the `.part` file of one pending upload.

    Disk faults are parameters: every call says which of its system calls fail and, for a failed
    write, which bytes reached the disk all the same. */
module UploadFile {
  import opened Basics

  /** Which system calls of one WriteUploadChunk call fail.  `torn` is what a failing write leaves
      on disk from the chunk's offset on; it is cut to the length of the chunk. */
  datatype ChunkIo = ChunkIo(readFails: bool, mkdirFails: bool, writeFails: bool, torn: Bytes, truncateFails: bool)

  function FileLength(part: Option<Bytes>): nat {
    match part
    case None => 0
    case Some(p) => |p|
  }

  predicate IsSha256Hex(d: Digest) {
    |d| == 64 && forall i :: 0 <= i < |d| ==> HexDigit(d[i])
  }

  /** server/common/src/Sha256.cpp: 64 characters, each a lower-case hexadecimal digit. */
  method IsValidSha256Hex(hex: Digest) returns (ok: bool)
    ensures ok == IsSha256Hex(hex)
    ensures ok <==> |hex| == 64 && forall c :: c in hex ==> c in "0123456789abcdef"
  {
    if |hex| != 64 {
      return false;
    }
    for i := 0 to |hex|
      invariant forall j :: 0 <= j < i ==> HexDigit(hex[j]) && hex[j] in "0123456789abcdef"
    {
      HexDigitIff(hex[i]);
      if !HexDigit(hex[i]) {
        assert hex[i] in hex;
        return false;
      }
    }
    return true;
  }

  predicate HexDigit(c: char) {
    '0' <= c <= '9' || 'a' <= c <= 'f'
  }

  lemma HexDigitIff(c: char)
    ensures HexDigit(c) <==> c in "0123456789abcdef"
  {
    var digits := "0123456789abcdef";
    if '0' <= c <= '9' {
      assert digits[c as int - '0' as int] == c;
    } else if 'a' <= c <= 'f' {
      assert digits[c as int - 'a' as int + 10] == c;
    }
  }

  /** SHA-256 prints as 64 lower-case hexadecimal digits. */
  ghost predicate HexDigests(sha: Bytes -> Digest) {
    forall b :: IsSha256Hex(sha(b))
  }

  /** The offset at which an upload whose file holds `length` bytes resumes. */
  function ResumeOffset(length: nat, total: nat, chunkSize: nat): (r: nat)
    requires chunkSize > 0
  {
    if length == 0 || length > total then 0 else FloorTo(length - 1, chunkSize)
  }

  /** The largest multiple of d that does not exceed n. */
  function FloorTo(n: nat, d: nat): (r: nat)
    requires d > 0
  {
    n / d * d
  }

  function Zeros(n: nat): (z: Bytes)
    ensures |z| == n
  {
    seq(n, _ => 0)
  }

  /** Writing `bytes` at `offset`: a gap is filled with zeros, bytes after the write are kept. */
  function Overlay(file: Bytes, offset: nat, bytes: Bytes): (r: Bytes)
    ensures |r| == if offset + |bytes| > |file| then offset + |bytes| else |file|
    ensures offset <= |file| ==> r[..offset] == file[..offset]
    ensures r[offset..offset + |bytes|] == bytes
  {
    var base := if offset > |file| then file + Zeros(offset - |file|) else file[..offset];
    var tail := if offset + |bytes| < |file| then file[offset + |bytes|..] else [];
    assert (base + bytes + tail)[offset..offset + |bytes|] == bytes;
    base + bytes + tail
  }

  /** The chunk that starts at `offset` is exactly one cell of the upload grid and lies at or
      below the confirmed frontier. */
  ghost predicate OnGrid(total: nat, chunkSize: nat, offset: nat, data: Bytes, received: nat) {
    && chunkSize > 0
    && offset % chunkSize == 0
    && offset < total
    && |data| == Min(chunkSize, total - offset)
    && (offset == received || offset + |data| <= received)
  }

  /** The code of the first guard that a rejected chunk fails: its size, its place on the grid, its
      exact length, its place relative to the frontier, and last its digest. */
  function RejectionCode(total: nat, chunkSize: nat, offset: nat, data: Bytes, received: nat): ErrorCode {
    if chunkSize == 0 then FileOffsetInvalid
    else if |data| == 0 || |data| > chunkSize then FileSizeExceeded
    else if offset % chunkSize != 0 || offset > total || |data| > total - offset then FileOffsetInvalid
    else if |data| != Min(chunkSize, total - offset) then FileSizeExceeded
    else if offset > received || (offset < received && offset + |data| > received) then FileOffsetInvalid
    else FileHashMismatch
  }

  /** What one WriteUploadChunk call may do to the file and to the confirmed offset. */
  ghost predicate ChunkOutcome(sha: Bytes -> Digest, total: nat, chunkSize: nat, offset: nat, data: Bytes,
                               digest: Digest, io: ChunkIo,
                               part: Option<Bytes>, received: nat,
                               part': Option<Bytes>, received': nat, code: ErrorCode)
  {
    if !OnGrid(total, chunkSize, offset, data, received) || !IsSha256Hex(digest) || sha(data) != digest then
      part' == part && received' == received && code == RejectionCode(total, chunkSize, offset, data, received)
    else if offset < received then
      DuplicateOutcome(sha, offset, data, digest, io, part, received, part', received', code)
    else
      AppendOutcome(offset, data, io, part, received, part', received', code)
  }

  /** A chunk below the frontier is compared with the disk, never written. */
  ghost predicate DuplicateOutcome(sha: Bytes -> Digest, offset: nat, data: Bytes, digest: Digest, io: ChunkIo,
                                   part: Option<Bytes>, received: nat,
                                   part': Option<Bytes>, received': nat, code: ErrorCode)
  {
    if io.readFails || part.None? || |part.value| < offset + |data| then
      part' == part && received' == received && code == FileReadFailed
    else if sha(part.value[offset..offset + |data|]) == digest then
      part' == part && received' == received && code == Success
    else if io.truncateFails then
      part' == part && received' == received && code == FileWritePermissionFailed
    else
      part' == Some(part.value[..offset]) && received' == offset && code == FileHashMismatch
  }

  /** A chunk at the frontier is written and read back; a failure keeps the confirmed prefix. */
  ghost predicate AppendOutcome(offset: nat, data: Bytes, io: ChunkIo,
                                part: Option<Bytes>, received: nat,
                                part': Option<Bytes>, received': nat, code: ErrorCode)
  {
    var file := if part.Some? then part.value else [];
    if io.mkdirFails then
      part' == part && received' == received && code == CreateFilePathFailed
    else if part.None? && offset != 0 then
      part' == part && received' == received && code == FileWritePermissionFailed
    else if !io.writeFails then
      part' == Some(Overlay(file, offset, data)) && received' == received + |data| && code == Success
    else
      && received' == received && code == FileWritePermissionFailed
      && var torn := Overlay(file, offset, io.torn[..Min(|io.torn|, |data|)]);
      part' == Some(if io.truncateFails || |torn| < received then torn else torn[..received])
  }

  class PartFile {
    const sha: Bytes -> Digest
    var content: Option<Bytes>

    constructor (sha: Bytes -> Digest)
      ensures this.sha == sha && content == None
    {
      this.sha := sha;
      content := None;
    }

    /** Discards what follows `received`; never extends the file and never touches the prefix. */
    method Truncate(received: nat, statFails: bool, resizeFails: bool) returns (ok: bool)
      modifies this
      ensures ok == (!statFails && received <= FileLength(old(content)) && (received < FileLength(old(content)) ==> !resizeFails))
      ensures ok ==> FileLength(content) == received
      ensures content == if ok && old(content).Some? then Some(old(content).value[..received]) else old(content)
    {
      if statFails || FileLength(content) < received {
        return false;
      }
      if FileLength(content) == received {
        assert content.Some? ==> content.value[..received] == content.value;
        return true;
      }
      if resizeFails {
        return false;
      }
      content := Some(content.value[..received]);
      return true;
    }

    /** Rolls the file back to the last chunk boundary that its length can prove. */
    method Recover(total: nat, chunkSize: nat, statFails: bool, resizeFails: bool) returns (ok: bool, received: nat)
      modifies this
      ensures ok ==> chunkSize > 0 && received == ResumeOffset(FileLength(old(content)), total, chunkSize)
      ensures ok ==> received <= FileLength(old(content)) && FileLength(content) == received
      ensures ok ==> content == if old(content).None? then None else Some(old(content).value[..received])
      ensures !ok ==> content == old(content) && received == 0
      ensures !statFails && !resizeFails && chunkSize > 0 ==> ok
    {
      received := 0;
      if chunkSize == 0 || statFails {
        return false, 0;
      }
      var resume := ResumeOffset(FileLength(content), total, chunkSize);
      ResumeOffsetBounds(FileLength(content), total, chunkSize);
      ok := Truncate(resume, statFails, resizeFails);
      if ok {
        received := resume;
      }
    }

    method WriteAndVerify(offset: nat, data: Bytes, io: ChunkIo) returns (ok: bool)
      modifies this
      ensures ok == (!io.writeFails && (old(content).Some? || offset == 0))
      ensures old(content).None? && offset != 0 ==> content == None
      ensures old(content).Some? || offset == 0 ==>
                content == Some(Overlay(if old(content).Some? then old(content).value else [], offset,
                                        if ok then data else io.torn[..Min(|io.torn|, |data|)]))
    {
      if content.None? {
        if offset != 0 {
          return false;
        }
        content := Some([]);
      }
      if io.writeFails {
        content := Some(Overlay(content.value, offset, io.torn[..Min(|io.torn|, |data|)]));
        return false;
      }
      content := Some(Overlay(content.value, offset, data));
      return content.value[offset..offset + |data|] == data;
    }

    method WriteUploadChunk(total: nat, chunkSize: nat, offset: nat, data: Bytes, digest: Digest,
                            received: nat, io: ChunkIo)
      returns (code: ErrorCode, received': nat)
      modifies this
      ensures ChunkOutcome(sha, total, chunkSize, offset, data, digest, io,
                           old(content), received, content, received', code)
    {
      received' := received;
      if chunkSize == 0 {
        return FileOffsetInvalid, received;
      }
      if |data| == 0 || |data| > chunkSize {
        return FileSizeExceeded, received;
      }
      if offset % chunkSize != 0 || offset > total || |data| > total - offset {
        return FileOffsetInvalid, received;
      }
      if |data| != Min(chunkSize, total - offset) {
        return FileSizeExceeded, received;
      }
      if offset > received || (offset < received && offset + |data| > received) {
        return FileOffsetInvalid, received;
      }
      if !IsSha256Hex(digest) || sha(data) != digest {
        return FileHashMismatch, received;
      }
      assert OnGrid(total, chunkSize, offset, data, received);
      if offset < received {
        if io.readFails || content.None? || |content.value| < offset + |data| {
          return FileReadFailed, received;
        }
        if sha(content.value[offset..offset + |data|]) == digest {
          return Success, received;
        }
        var truncated := Truncate(offset, false, io.truncateFails);
        if !truncated {
          return FileWritePermissionFailed, received;
        }
        return FileHashMismatch, offset;
      }
      if io.mkdirFails {
        return CreateFilePathFailed, received;
      }
      var written := WriteAndVerify(offset, data, io);
      if !written {
        var truncated := Truncate(received, false, io.truncateFails);
        assert content.Some? && |content.value| <= received ==> content.value[..|content.value|] == content.value;
        return FileWritePermissionFailed, received;
      }
      return Success, received + |data|;
    }
  }

  /** Recovery lands on a chunk boundary strictly below the file's end and gives up at most one
      chunk of it. */
  lemma ResumeOffsetBounds(length: nat, total: nat, chunkSize: nat)
    requires chunkSize > 0
    ensures var r := ResumeOffset(length, total, chunkSize);
            && r % chunkSize == 0
            && r <= length
            && (0 < length <= total ==> r < length <= r + chunkSize)
  {
    if 0 < length <= total {
      FloorBounds(length - 1, chunkSize);
      FloorIsAligned(length - 1, chunkSize);
    } else {
      MultipleIsAligned(0, chunkSize);
    }
  }

  lemma FloorBounds(n: nat, d: nat)
    requires d > 0
    ensures FloorTo(n, d) <= n < FloorTo(n, d) + d
  {
    var q, r := n / d, n % d;
    assert n == q * d + r;
  }

  lemma FloorIsAligned(n: nat, d: nat)
    requires d > 0
    ensures FloorTo(n, d) % d == 0
  {
    MultipleIsAligned(n / d, d);
  }

  lemma {:induction false} MultipleIsAligned(q: nat, d: nat)
    requires d > 0
    ensures q * d % d == 0
    decreases q
  {
    if q > 0 {
      MultipleIsAligned(q - 1, d);
      AddDivisor((q - 1) * d, d);
      assert q * d == (q - 1) * d + d;
    }
  }

  /** Adding the divisor leaves the remainder alone. */
  lemma AddDivisor(n: int, d: nat)
    requires d > 0
    ensures (n + d) % d == n % d
  {
    var a, b := n / d, (n + d) / d;
    assert n == a * d + n % d && n + d == b * d + (n + d) % d;
    assert (b - a - 1) * d == n % d - (n + d) % d by {
      assert (b - a - 1) * d == b * d - a * d - d;
    }
    SmallMultipleIsZero(b - a - 1, d);
  }

  lemma SmallMultipleIsZero(m: int, d: int)
    requires -d < m * d < d
    ensures m == 0
  {
  }
}
