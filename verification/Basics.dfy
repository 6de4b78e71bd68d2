/** Types and small facts shared by every component of the model. */
module Basics {

  type Byte = b: int | 0 <= b < 256
  type Bytes = seq<Byte>

  /** A lower-case hexadecimal SHA-256, as stored in message_resources.sha256. */
  type Digest = string

  datatype Option<+T> = None | Some(value: T)

  /** The 20xx/21xx codes that the modelled handlers answer with. */
  datatype ErrorCode =
    | Success
    | RPCFailed
    | CreateFilePathFailed
    | FileWritePermissionFailed
    | FileOffsetInvalid
    | FileReadFailed
    | MsgIdErr
    | FileHashMismatch
    | FileSizeExceeded
    | ResourceNotReady
    | ResourceForbidden
    | ResourceStateInvalid
    | FileContentMismatch
    | FileNotExists

  function Min(a: int, b: int): int {
    if a <= b then a else b
  }

  lemma HasMember(s: set<int>)
    ensures s == {} || exists m :: m in s
  {
    if !exists m :: m in s {
      assert s == {};
    }
  }
}
