/** The two byte layouts of the resource protocol: the chunk frame inside a message body
    (proto/resource_wire.h), and the stream of messages with six-byte headers
    (server/ResourceServer/src/MsgNode.cpp and CSession.cpp). */
module Wire {
  import opened Basics

  const MAX_META: nat := 8192
  const MAX_RAW: nat := 262144
  const MAX_BODY: nat := 2 + MAX_META + MAX_RAW

  // ---- Chunk frames ----------------------------------------------------------------------------------------

  predicate InBudget(meta: Bytes, raw: Bytes) {
    1 <= |meta| <= MAX_META && |raw| <= MAX_RAW
  }

  function Be16(n: nat): Bytes
    requires n < 0x1_0000
  {
    [n / 256, n % 256]
  }

  function FromBe16(b: Bytes): (n: nat)
    requires |b| == 2
    ensures n < 0x1_0000
  {
    b[0] as int * 256 + b[1] as int
  }

  lemma Be16Inverts(n: nat, b: Bytes)
    requires n < 0x1_0000 && |b| == 2
    ensures FromBe16(Be16(n)) == n && Be16(FromBe16(b)) == b
  {
  }

  /** The layout: big-endian length of the meta part, the meta part, the raw part. */
  function Layout(meta: Bytes, raw: Bytes): Bytes
    requires InBudget(meta, raw)
  {
    Be16(|meta|) + meta + raw
  }

  /** A frame is accepted when it is the layout of some pair within the budget. */
  ghost predicate IsFrame(frame: Bytes) {
    exists meta, raw :: InBudget(meta, raw) && frame == Layout(meta, raw)
  }

  /** EncodeFrame: `out` is replaced only after every check has passed. */
  method EncodeFrame(meta: Bytes, raw: Bytes, out: Bytes) returns (ok: bool, out': Bytes)
    ensures ok <==> InBudget(meta, raw)
    ensures out' == if ok then Layout(meta, raw) else out
    ensures ok ==> |out'| == 2 + |meta| + |raw| && out'[0] as int * 256 + out'[1] as int == |meta| && out'[2..2 + |meta|] == meta && out'[2 + |meta|..] == raw
  {
    out' := out;
    if |meta| == 0 || |meta| > MAX_META {
      return false, out;
    }
    if |raw| > MAX_RAW {
      return false, out;
    }
    var total := 2 + |meta| + |raw|;
    if total > MAX_BODY {
      return false, out;
    }
    out' := [|meta| / 256 % 256, |meta| % 256];
    out' := out' + meta;
    out' := out' + raw;
    return true, out';
  }

  method PeekMetaLen(buf: Bytes) returns (length: Option<nat>)
    ensures length == if |buf| < 2 then None else Some(FromBe16(buf[..2]))
  {
    if |buf| < 2 {
      return None;
    }
    return Some(buf[0] as int * 256 + buf[1] as int);
  }

  /** DecodeFrame: accepts exactly the encodings, and gives back the pair that was encoded. */
  method DecodeFrame(frame: Bytes, meta: Bytes, raw: Bytes) returns (ok: bool, meta': Bytes, raw': Bytes)
    ensures ok <==> IsFrame(frame)
    ensures ok ==> InBudget(meta', raw') && Layout(meta', raw') == frame
    ensures !ok ==> meta' == meta && raw' == raw
  {
    ok, meta', raw' := false, meta, raw;
    FrameIff(frame);
    if |frame| < 3 || |frame| > MAX_BODY {
      return;
    }
    var length := PeekMetaLen(frame);
    var metaLen := length.value;
    if metaLen == 0 || metaLen > MAX_META || |frame| - 2 < metaLen || |frame| - 2 - metaLen > MAX_RAW {
      return;
    }
    return true, frame[2..2 + metaLen], frame[2 + metaLen..];
  }

  /** The checks of DecodeFrame. */
  predicate Fits(frame: Bytes) {
    && 3 <= |frame| <= MAX_BODY
    && 1 <= FromBe16(frame[..2]) <= Min(MAX_META, |frame| - 2)
    && |frame| - 2 - FromBe16(frame[..2]) <= MAX_RAW
  }

  lemma FrameIff(frame: Bytes)
    ensures IsFrame(frame) <==> Fits(frame)
    ensures Fits(frame) ==>
              var n := FromBe16(frame[..2]);
              InBudget(frame[2..2 + n], frame[2 + n..]) && Layout(frame[2..2 + n], frame[2 + n..]) == frame
  {
    if Fits(frame) {
      var n := FromBe16(frame[..2]);
      Be16Inverts(0, frame[..2]);
      assert Layout(frame[2..2 + n], frame[2 + n..]) == frame;
    }
    if IsFrame(frame) {
      var meta, raw :| InBudget(meta, raw) && frame == Layout(meta, raw);
      LayoutParts(meta, raw);
    }
  }

  /** Two pairs never share an encoding. */
  lemma LayoutIsInjective(meta: Bytes, raw: Bytes, meta': Bytes, raw': Bytes)
    requires InBudget(meta, raw) && InBudget(meta', raw') && Layout(meta, raw) == Layout(meta', raw')
    ensures meta == meta' && raw == raw'
  {
    LayoutParts(meta, raw);
    LayoutParts(meta', raw');
  }

  /** A layout determines its parts. */
  lemma LayoutParts(meta: Bytes, raw: Bytes)
    requires InBudget(meta, raw)
    ensures var frame := Layout(meta, raw);
            && |frame| == 2 + |meta| + |raw| <= MAX_BODY
            && FromBe16(frame[..2]) == |meta|
            && frame[2..2 + |meta|] == meta && frame[2 + |meta|..] == raw
  {
    var frame := Layout(meta, raw);
    assert frame[..2] == Be16(|meta|);
    Be16Inverts(|meta|, [0, 0]);
  }

  // ---- Messages --------------------------------------------------------------------------------------------

  const HEAD: nat := 6
  /** kMaxMsgId of proto/protocol_ids.h. */
  const MAX_MSG_ID: nat := 2048
  const MAX_UNAUTHED_BODY: nat := 4096

  datatype Message = Message(kind: nat, body: Bytes)

  function Be32(n: nat): Bytes
    requires n < 0x1_0000_0000
  {
    Be16(n / 0x1_0000) + Be16(n % 0x1_0000)
  }

  function FromBe32(b: Bytes): (n: nat)
    requires |b| == 4
    ensures n < 0x1_0000_0000
  {
    FromBe16(b[..2]) * 0x1_0000 + FromBe16(b[2..])
  }

  lemma Be32RoundTrip(n: nat)
    requires n < 0x1_0000_0000
    ensures FromBe32(Be32(n)) == n
  {
    var hi, lo := Be16(n / 0x1_0000), Be16(n % 0x1_0000);
    Be16Inverts(n / 0x1_0000, hi);
    Be16Inverts(n % 0x1_0000, lo);
    assert (hi + lo)[..2] == hi && (hi + lo)[2..] == lo;
  }

  predicate Sendable(m: Message) {
    m.kind < 0x1_0000 && |m.body| < 0x1_0000_0000
  }

  /** Type, length, body, in network byte order. */
  function OnWire(m: Message): (r: Bytes)
    requires Sendable(m)
    ensures |r| == HEAD + |m.body|
  {
    Be16(m.kind) + Be32(|m.body|) + m.body
  }

  class SendNode {
    const data: array<Byte>

    /** Fills the buffer in place: two bytes, four bytes, the body. */
    constructor (m: Message)
      requires Sendable(m)
      ensures fresh(data) && data[..] == OnWire(m)
      ensures data.Length == 6 + |m.body| && data[0] as int * 256 + data[1] as int == m.kind
      ensures ((data[2] as int * 256 + data[3] as int) * 256 + data[4] as int) * 256 + data[5] as int == |m.body| && data[6..] == m.body
    {
      data := new Byte[HEAD + |m.body|];
      new;
      data[0], data[1] := m.kind / 256, m.kind % 256;
      var n := |m.body|;
      data[2], data[3], data[4], data[5] := n / 0x1_0000 / 256, n / 0x1_0000 % 256, n % 0x1_0000 / 256, n % 0x1_0000 % 256;
      for k := 0 to n
        invariant data[..6] == Be16(m.kind) + Be32(n)
        invariant forall j :: 0 <= j < k ==> data[6 + j] == m.body[j]
      {
        data[6 + k] := m.body[k];
      }
      assert data[6..] == m.body;
      assert data[..] == data[..6] + data[6..];
    }
  }

  /** A message the reader lets through. */
  predicate Acceptable(m: Message, limit: nat) {
    m.kind <= MAX_MSG_ID && 0 < |m.body| <= limit
  }

  function KindOf(head: Bytes): nat
    requires |head| == HEAD
  {
    FromBe16(head[..2])
  }

  function LengthOf(head: Bytes): nat
    requires |head| == HEAD
  {
    FromBe32(head[2..])
  }

  predicate HeadOk(head: Bytes, limit: nat)
    requires |head| == HEAD
  {
    KindOf(head) <= MAX_MSG_ID && 0 < LengthOf(head) <= limit
  }

  /** What a byte stream contains: whole messages, the bytes after the last one, and whether the next
      header is one that closes the connection. */
  datatype Scanned = Scanned(messages: seq<Message>, rest: Bytes, closed: bool)

  /** The stream starts with a whole message. */
  predicate Starts(s: Bytes, limit: nat) {
    |s| >= HEAD && HeadOk(s[..HEAD], limit) && |s| >= HEAD + LengthOf(s[..HEAD])
  }

  function First(s: Bytes, limit: nat): Message
    requires Starts(s, limit)
  {
    Message(KindOf(s[..HEAD]), s[HEAD..HEAD + LengthOf(s[..HEAD])])
  }

  function Rest(s: Bytes, limit: nat): (r: Bytes)
    requires Starts(s, limit)
    ensures |r| < |s|
  {
    s[HEAD + LengthOf(s[..HEAD])..]
  }

  predicate Refused(s: Bytes, limit: nat) {
    |s| >= HEAD && !HeadOk(s[..HEAD], limit)
  }

  function Scan(s: Bytes, limit: nat): Scanned {
    if Starts(s, limit) then After([First(s, limit)], Scan(Rest(s, limit), limit))
    else Scanned([], s, Refused(s, limit))
  }

  function After(messages: seq<Message>, tail: Scanned): Scanned {
    tail.(messages := messages + tail.messages)
  }

  lemma AfterAfter(a: seq<Message>, b: seq<Message>, tail: Scanned)
    ensures After(a, After(b, tail)) == After(a + b, tail)
  {
    assert a + (b + tail.messages) == (a + b) + tail.messages;
  }

  lemma AfterNothing(tail: Scanned)
    ensures After([], tail) == tail
  {
    assert [] + tail.messages == tail.messages;
  }

  lemma AppendKeepsStart(a: Bytes, b: Bytes, limit: nat)
    requires |a| >= HEAD
    ensures (a + b)[..HEAD] == a[..HEAD]
    ensures Starts(a, limit) ==> Starts(a + b, limit) && First(a + b, limit) == First(a, limit) && Rest(a + b, limit) == Rest(a, limit) + b
  {
    assert (a + b)[..HEAD] == a[..HEAD];
    if Starts(a, limit) {
      var end := HEAD + LengthOf(a[..HEAD]);
      assert (a + b)[HEAD..end] == a[HEAD..end] && (a + b)[end..] == a[end..] + b;
    }
  }

  /** Scanning goes on from the leftover bytes. */
  lemma {:induction false} ScanContinues(a: Bytes, b: Bytes, limit: nat)
    requires !Scan(a, limit).closed
    ensures Scan(a + b, limit) == After(Scan(a, limit).messages, Scan(Scan(a, limit).rest + b, limit))
    decreases |a|
  {
    if Starts(a, limit) {
      AppendKeepsStart(a, b, limit);
      ScanContinues(Rest(a, limit), b, limit);
      var inner := Scan(Rest(a, limit), limit);
      AfterAfter([First(a, limit)], inner.messages, Scan(inner.rest + b, limit));
    } else {
      AfterNothing(Scan(a + b, limit));
    }
  }

  /** A connection that was closed stays closed, whatever else arrives. */
  lemma {:induction false} ClosedIsFinal(a: Bytes, b: Bytes, limit: nat)
    requires Scan(a, limit).closed
    ensures Scan(a + b, limit).closed && Scan(a + b, limit).messages == Scan(a, limit).messages
    decreases |a|
  {
    AppendKeepsStart(a, b, limit);
    if Starts(a, limit) {
      ClosedIsFinal(Rest(a, limit), b, limit);
    }
  }

  function Concat(messages: seq<Message>): Bytes
    requires forall m :: m in messages ==> Sendable(m)
  {
    if messages == [] then [] else OnWire(messages[0]) + Concat(messages[1..])
  }

  lemma OnWireParts(m: Message, rest: Bytes)
    requires Sendable(m)
    ensures var s := OnWire(m) + rest;
            && KindOf(s[..HEAD]) == m.kind && LengthOf(s[..HEAD]) == |m.body|
            && s[HEAD..HEAD + |m.body|] == m.body && s[HEAD + |m.body|..] == rest
  {
    var s := OnWire(m) + rest;
    assert s[..HEAD] == Be16(m.kind) + Be32(|m.body|);
    assert s[..HEAD][..2] == Be16(m.kind) && s[..HEAD][2..] == Be32(|m.body|);
    Be16Inverts(m.kind, [0, 0]);
    Be32RoundTrip(|m.body|);
  }

  /** The encodings of acceptable messages, one after the other, scan back to those messages. */
  lemma {:induction false} ScanInvertsConcat(messages: seq<Message>, limit: nat)
    requires forall m :: m in messages ==> Acceptable(m, limit) && Sendable(m)
    ensures Scan(Concat(messages), limit) == Scanned(messages, [], false)
  {
    if messages != [] {
      assert messages[0] in messages;
      OnWireParts(messages[0], Concat(messages[1..]));
      assert Starts(OnWire(messages[0]) + Concat(messages[1..]), limit);
      ScanInvertsConcat(messages[1..], limit);
      assert [messages[0]] + messages[1..] == messages;
    }
  }

  // ---- The reader ------------------------------------------------------------------------------------------

  /** How many of the first n messages the task quota admits: all of them, or those before the first
      refusal. */
  function Admitted(grants: nat -> bool, n: nat): (k: nat)
    ensures k <= n && (forall i :: 0 <= i < k ==> grants(i)) && (k < n ==> !grants(k))
  {
    if n == 0 then 0
    else
      var k := Admitted(grants, n - 1);
      if k < n - 1 || !grants(n - 1) then k else n
  }

  lemma AdmittedIs(grants: nat -> bool, n: nat, k: nat)
    requires k <= n && (forall i :: 0 <= i < k ==> grants(i)) && (k < n ==> !grants(k))
    ensures Admitted(grants, n) == k
  {
    var j := Admitted(grants, n);
    assert grants(j) || !grants(j);
    assert grants(k) || !grants(k);
  }

  /** AsyncReadHead, AsyncReadBody and asyncReadLen of one session.  `stream` is everything that was
      handed over by the socket so far; `grants` says for the k-th message whether the session's task
      quota admits it. */
  class Reader {
    const limit: nat
    const grants: nat -> bool
    /** The header that was read, once it was; its bytes so far, or the bytes of the body. */
    var head: Option<Bytes>
    var have: Bytes
    var delivered: seq<Message>
    var closed: bool
    ghost var stream: Bytes

    constructor (authed: bool, grants: nat -> bool)
      ensures Valid() && stream == [] && delivered == [] && !closed && this.grants == grants
      ensures limit == if authed then MAX_BODY else MAX_UNAUTHED_BODY
    {
      limit := if authed then MAX_BODY else MAX_UNAUTHED_BODY;
      this.grants := grants;
      head, have, delivered, closed, stream := None, [], [], false, [];
    }

    function Want(): nat
      requires head.Some? ==> |head.value| == HEAD
      reads this
    {
      Wanted(head)
    }

    /** Deliveries are exactly the admitted messages of the stream; the reader stops at the first one
        that the quota refuses, or at the first illegal header. */
    ghost predicate Valid()
      reads this
    {
      && (head.Some? ==> |head.value| == HEAD && HeadOk(head.value, limit))
      && var all := Scan(stream, limit);
      && delivered == all.messages[..Admitted(grants, |all.messages|)]
      && (closed <==> all.closed || Admitted(grants, |all.messages|) < |all.messages|)
      && (!closed ==> |have| < Want() && all == Scanned(delivered, Unread(head, have), false))
    }

    /** One completion of async_read_some: at most the bytes that are still wanted. */
    method ReadSome(piece: Bytes)
      requires Valid() && !closed && 0 < |piece| <= Want() - |have|
      modifies this
      ensures Valid() && stream == old(stream) + piece
    {
      Progress(stream, delivered, head, have, piece, limit, grants);
      stream := stream + piece;
      have := have + piece;
      if |have| < Want() {
        return;
      }
      if head.None? {
        if !HeadOk(have, limit) {
          closed := true;
          return;
        }
        head, have := Some(have), [];
        return;
      }
      Deliver();
    }

    /** A whole message is there: it is delivered, or the quota refuses it and the session closes. */
    method Deliver()
      requires head.Some? && |head.value| == HEAD && HeadOk(head.value, limit) && !closed
      requires Scan(stream, limit) == Scanned(delivered + [Message(KindOf(head.value), have)], [], false)
      requires Admitted(grants, |delivered| + 1) == if grants(|delivered|) then |delivered| + 1 else |delivered|
      modifies this
      ensures Valid() && stream == old(stream)
    {
      if !grants(|delivered|) {
        closed := true;
        return;
      }
      delivered := delivered + [Message(KindOf(head.value), have)];
      head, have := None, [];
      assert Unread(head, have) == [];
    }

    /** A segment of any size arrives: it is read in as many pieces as it takes. */
    method Feed(segment: Bytes)
      requires Valid()
      modifies this
      ensures Valid() && stream == old(stream) + segment
    {
      var left := segment;
      while left != [] && !closed
        invariant Valid() && stream + left == old(stream) + segment
        decreases |left|
      {
        var n := Min(Want() - |have|, |left|);
        assert stream + left == stream + left[..n] + left[n..];
        ReadSome(left[..n]);
        left := left[n..];
      }
      if left != [] {
        StoppedIsFinal(stream, left, limit, grants);
        stream := stream + left;
      }
    }

    /** Whatever the segmentation, an authenticated session delivers exactly the messages that were
        sent, in order, up to the first one that the quota refuses, where it closes. */
    method Receive(messages: seq<Message>, segments: seq<Bytes>)
      requires Valid() && stream == []
      requires forall m :: m in messages ==> Acceptable(m, limit) && Sendable(m)
      requires Flatten(segments) == Concat(messages)
      modifies this
      ensures Valid()
      ensures delivered == messages[..Admitted(grants, |messages|)]
      ensures closed <==> Admitted(grants, |messages|) < |messages|
      ensures (forall k :: grants(k)) ==> delivered == messages && !closed
    {
      for k := 0 to |segments|
        invariant Valid() && stream == Flatten(segments[..k])
      {
        FlattenNext(segments, k);
        Feed(segments[k]);
      }
      assert segments[..|segments|] == segments;
      ScanInvertsConcat(messages, limit);
    }
  }

  /** What one more piece makes of the stream, with what the quota admits of it. */
  lemma Progress(stream: Bytes, delivered: seq<Message>, head: Option<Bytes>, have: Bytes, piece: Bytes, limit: nat, grants: nat -> bool)
    requires head.Some? ==> |head.value| == HEAD && HeadOk(head.value, limit)
    requires |have| + |piece| <= Wanted(head)
    requires Scan(stream, limit) == Scanned(delivered, Unread(head, have), false) && Admitted(grants, |delivered|) == |delivered|
    ensures var all := Scan(stream + piece, limit);
            if |have + piece| < Wanted(head) then all == Scanned(delivered, Unread(head, have + piece), false)
            else if head.None? then all == Scanned(delivered, have + piece, !HeadOk(have + piece, limit))
            else
              && all == Scanned(delivered + [Message(KindOf(head.value), have + piece)], [], false)
              && Admitted(grants, |all.messages|) == (if grants(|delivered|) then |delivered| + 1 else |delivered|)
  {
    Arrives(stream, delivered, head, have, piece, limit);
    NextAdmitted(grants, |delivered|);
    assert head.None? ==> Unread(None, have + piece) == have + piece;
  }

  lemma NextAdmitted(grants: nat -> bool, n: nat)
    ensures Admitted(grants, n) == n ==> Admitted(grants, n + 1) == if grants(n) then n + 1 else n
  {
    if Admitted(grants, n) == n {
      AdmittedIs(grants, n + 1, if grants(n) then n + 1 else n);
    }
  }

  lemma ScanGrows(a: Bytes, b: Bytes, limit: nat)
    ensures Scan(a, limit).messages <= Scan(a + b, limit).messages
    ensures Scan(a, limit).closed ==> Scan(a + b, limit).closed && Scan(a + b, limit).messages == Scan(a, limit).messages
  {
    if Scan(a, limit).closed {
      ClosedIsFinal(a, b, limit);
    } else {
      ScanContinues(a, b, limit);
    }
  }

  /** A reader that has stopped stays stopped with the same deliveries, whatever else arrives. */
  lemma StoppedIsFinal(a: Bytes, b: Bytes, limit: nat, grants: nat -> bool)
    requires var all := Scan(a, limit); all.closed || Admitted(grants, |all.messages|) < |all.messages|
    ensures var all, more := Scan(a, limit), Scan(a + b, limit);
            && more.messages[..Admitted(grants, |more.messages|)] == all.messages[..Admitted(grants, |all.messages|)]
            && (more.closed || Admitted(grants, |more.messages|) < |more.messages|)
  {
    var all, more := Scan(a, limit), Scan(a + b, limit);
    ScanGrows(a, b, limit);
    var k := Admitted(grants, |all.messages|);
    if k < |all.messages| {
      AdmittedIs(grants, |more.messages|, k);
      assert more.messages[..k] == all.messages[..k];
    }
  }

  function Unread(head: Option<Bytes>, have: Bytes): Bytes {
    (if head.Some? then head.value else []) + have
  }

  function Wanted(head: Option<Bytes>): nat
    requires head.Some? ==> |head.value| == HEAD
  {
    if head.None? then HEAD else LengthOf(head.value)
  }

  /** What one more piece of the header or the body makes of the stream. */
  lemma Arrives(stream: Bytes, delivered: seq<Message>, head: Option<Bytes>, have: Bytes, piece: Bytes, limit: nat)
    requires head.Some? ==> |head.value| == HEAD && HeadOk(head.value, limit)
    requires |have| + |piece| <= Wanted(head)
    requires Scan(stream, limit) == Scanned(delivered, Unread(head, have), false)
    ensures var all := Scan(stream + piece, limit);
            if |have + piece| < Wanted(head) then all == Scanned(delivered, Unread(head, have + piece), false)
            else if head.None? then all == Scanned(delivered, Unread(None, have + piece), !HeadOk(have + piece, limit))
            else all == Scanned(delivered + [Message(KindOf(head.value), have + piece)], [], false)
  {
    assert Unread(head, have) + piece == Unread(head, have + piece);
    ScanContinues(stream, piece, limit);
    ScanUnread(head, have + piece, limit);
    assert delivered + [] == delivered;
  }

  lemma ScanUnread(head: Option<Bytes>, have: Bytes, limit: nat)
    requires head.Some? ==> |head.value| == HEAD && HeadOk(head.value, limit)
    requires |have| <= Wanted(head)
    ensures var all := Scan(Unread(head, have), limit);
            if |have| < Wanted(head) then all == Scanned([], Unread(head, have), false)
            else if head.None? then all == Scanned([], Unread(None, have), !HeadOk(have, limit))
            else all == Scanned([Message(KindOf(head.value), have)], [], false)
  {
    var unread := Unread(head, have);
    if head.Some? && |have| == Wanted(head) {
      JustComplete(unread, head.value, have, limit);
    } else {
      assert head.None? ==> unread == have;
      NotYet(unread, head, have, limit);
      assert |have| == HEAD ==> have[..HEAD] == have;
    }
  }

  /** Bytes that do not yet make a whole message. */
  lemma NotYet(unread: Bytes, head: Option<Bytes>, have: Bytes, limit: nat)
    requires head.None? ==> unread == have && |have| <= HEAD
    requires head.Some? ==> |head.value| == HEAD && HeadOk(head.value, limit) && unread == head.value + have && |have| < LengthOf(head.value)
    ensures Scan(unread, limit) == Scanned([], unread, Refused(unread, limit))
    ensures head.Some? ==> !Refused(unread, limit)
  {
    if head.Some? {
      assert unread[..HEAD] == head.value;
    }
  }

  /** Bytes that make exactly one message. */
  lemma JustComplete(unread: Bytes, head: Bytes, have: Bytes, limit: nat)
    requires |head| == HEAD && HeadOk(head, limit) && unread == head + have && |have| == LengthOf(head)
    ensures Scan(unread, limit) == Scanned([Message(KindOf(head), have)], [], false)
  {
    assert unread[..HEAD] == head && unread[HEAD..] == have;
    assert Starts(unread, limit) && First(unread, limit) == Message(KindOf(head), have) && Rest(unread, limit) == [];
  }

  function Flatten(segments: seq<Bytes>): Bytes {
    if segments == [] then [] else segments[0] + Flatten(segments[1..])
  }

  lemma {:induction false} FlattenNext(segments: seq<Bytes>, k: nat)
    requires k < |segments|
    ensures Flatten(segments[..k + 1]) == Flatten(segments[..k]) + segments[k]
    decreases k
  {
    if k == 0 {
      assert segments[..1] == [segments[0]] + [];
    } else {
      FlattenNext(segments[1..], k - 1);
      assert segments[..k + 1][1..] == segments[1..][..k];
      assert segments[..k][1..] == segments[1..][..k - 1];
      assert segments[1..][k - 1] == segments[k];
    }
  }
}
