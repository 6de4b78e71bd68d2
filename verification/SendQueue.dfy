/** The outgoing side of a connection in both servers (server/ChatServer/src/CSession.cpp and
    server/ResourceServer/src/CSession.cpp).

    Every method is one section that the code runs under _send_lock or one callback, so the calls of
    all threads are some sequence of method calls, and what every method keeps holds in every
    interleaving.  A close that the code issues after leaving the lock is the caller's next call.
    `accepted`, `written`, `failed` and `terminal` record what happened and never decide anything. */
module SendQueue {
  import opened Basics
  import opened Lifecycle

  datatype Frame = Frame(kind: int, body: Bytes)

  /** Frames leave in acceptance order, and the one write in flight is the queue's front. */
  ghost predicate InOrder(queue: seq<Frame>, writes: seq<Frame>, accepted: seq<Frame>, written: seq<Frame>) {
    && accepted == written + queue
    && writes == queue[..Min(1, |queue|)]
  }

  /** The frame of SendAndClose is the last one ever queued. */
  ghost predicate EndsWith(accepted: seq<Frame>, terminal: Option<Frame>) {
    terminal.Some? ==> accepted != [] && accepted[|accepted| - 1] == terminal.value
  }

  /** Once everything accepted has been written, so has the terminal frame. */
  lemma DrainedMeansTerminalWritten(queue: seq<Frame>, writes: seq<Frame>, accepted: seq<Frame>, written: seq<Frame>, terminal: Option<Frame>)
    requires InOrder(queue, writes, accepted, written) && EndsWith(accepted, terminal)
    ensures queue == [] ==> EndsWith(written, terminal)
    ensures terminal.Some? && queue != [] ==> queue[|queue| - 1] == terminal.value
  {
    if queue == [] {
      assert accepted == written;
    }
  }

  lemma PopKeepsOrder(queue: seq<Frame>, writes: seq<Frame>, accepted: seq<Frame>, written: seq<Frame>)
    requires InOrder(queue, writes, accepted, written) && queue != []
    ensures writes == [queue[0]]
    ensures InOrder(queue[1..], queue[1..][..Min(1, |queue| - 1)], accepted, written + [queue[0]])
  {
    assert queue == [queue[0]] + queue[1..];
  }

  // ---- ChatServer ----------------------------------------------------------------------------------------

  /** MAX_SENDQUE, and SHRT_MAX minus the four header bytes. */
  const MAX_SENDQUE: nat := 1000
  const MAX_SEND_PAYLOAD: nat := 32763

  class ChatSession {
    const lifecycle: SessionLifecycle
    var socketOpen: bool
    var uid: int
    var queue: seq<Frame>
    var writes: seq<Frame>
    /** RemoveSession calls and posted presence clean-ups. */
    var removals: nat
    var cleanups: nat
    ghost var accepted: seq<Frame>
    ghost var written: seq<Frame>
    ghost var failed: bool
    ghost var terminal: Option<Frame>

    constructor ()
      ensures Valid() && fresh(lifecycle) && lifecycle.phase == Open && socketOpen && uid == 0 && queue == []
    {
      lifecycle := new SessionLifecycle();
      socketOpen, uid, queue, writes, removals, cleanups := true, 0, [], [], 0, 0;
      accepted, written, failed, terminal := [], [], false, None;
    }

    ghost predicate Valid()
      reads this, lifecycle
    {
      && (!failed ==> InOrder(queue, writes, accepted, written))
      && (failed ==> writes == [] && queue != [])
      && EndsWith(accepted, terminal)
      && (terminal.Some? ==> lifecycle.phase != Open)
      && |queue| <= MAX_SENDQUE + (if terminal.Some? then 2 else 1)
      && (forall f :: f in queue ==> |f.body| <= MAX_SEND_PAYLOAD)
      && removals == (if lifecycle.phase in {Closing, Closed} then 1 else 0)
      && cleanups <= removals
      && (cleanups == 1 ==> uid > 0)
      && (lifecycle.phase in {Closing, Closed} && uid > 0 ==> cleanups == 1)
    }

    /** Nothing about the past changes and no frame jumps the queue. */
    twostate predicate Continues()
      reads this, lifecycle
    {
      && old(accepted) <= accepted && old(written) <= written
      && (old(terminal).Some? ==> terminal == old(terminal) && accepted == old(accepted))
      && (old(lifecycle.phase) != Open ==> accepted == old(accepted))
      && (old(failed) ==> failed)
    }

    /** TrySetUserId: under the same mutex as the transition of Close. */
    method TrySetUserId(newUid: int) returns (bound: bool)
      requires Valid()
      modifies this`uid
      ensures Valid()
      ensures bound == (newUid > 0 && lifecycle.phase == Open && old(uid) == 0)
      ensures uid == if bound then newUid else old(uid)
    {
      if newUid <= 0 || lifecycle.phase != Open || uid != 0 {
        return false;
      }
      uid := newUid;
      return true;
    }

    method Push(f: Frame)
      requires !failed ==> InOrder(queue, writes, accepted, written)
      requires failed ==> writes == [] && queue != []
      modifies this`queue, this`writes, this`accepted
      ensures queue == old(queue) + [f] && accepted == old(accepted) + [f]
      ensures !failed ==> InOrder(queue, writes, accepted, written)
      ensures failed ==> writes == []
    {
      queue := queue + [f];
      accepted := accepted + [f];
      if |queue| == 1 {
        writes := writes + [queue[0]];
      }
    }

    /** The closure that Send posts to the I/O thread. */
    method Send(f: Frame) returns (queued: bool)
      requires Valid()
      modifies this`queue, this`writes, this`accepted
      ensures Valid() && Continues()
      ensures queued == (lifecycle.phase == Open && socketOpen && |f.body| <= MAX_SEND_PAYLOAD && |old(queue)| <= MAX_SENDQUE)
      ensures accepted == if queued then old(accepted) + [f] else old(accepted)
      ensures queue == if queued then old(queue) + [f] else old(queue)
    {
      if lifecycle.phase != Open || !socketOpen || |f.body| > MAX_SEND_PAYLOAD || |queue| > MAX_SENDQUE {
        return false;
      }
      Push(f);
      return true;
    }

    /** The closure that SendAndClose posts; true tells the caller to close at once. */
    method SendAndClose(f: Frame) returns (closeNow: bool)
      requires Valid()
      modifies this`queue, this`writes, this`accepted, this`terminal, lifecycle
      ensures Valid() && Continues()
      ensures closeNow <==> !socketOpen || (old(lifecycle.phase) == Open && |f.body| > MAX_SEND_PAYLOAD)
      ensures terminal == if socketOpen && old(lifecycle.phase) == Open && |f.body| <= MAX_SEND_PAYLOAD then Some(f) else old(terminal)
      ensures accepted == if terminal != old(terminal) then old(accepted) + [f] else old(accepted)
      ensures lifecycle.phase == if socketOpen && old(lifecycle.phase) == Open then Draining else old(lifecycle.phase)
    {
      if !socketOpen {
        return true;
      }
      var won := lifecycle.BeginDrain();
      if !won {
        return false;
      }
      if |f.body| > MAX_SEND_PAYLOAD {
        return true;
      }
      Push(f);
      terminal := Some(f);
      return false;
    }

    /** The callback of the write in flight; true tells the caller to close. */
    method HandleWrite(ok: bool) returns (closeNow: bool)
      requires Valid() && writes != []
      modifies this`queue, this`writes, this`written, this`failed
      ensures Valid() && Continues()
      ensures !old(failed) && failed == !ok
      ensures written == if ok then old(written) + [old(queue)[0]] else old(written)
      ensures closeNow <==> !ok || (lifecycle.phase == Draining && |old(queue)| == 1)
      ensures closeNow && ok ==> EndsWith(written, terminal) && queue == []
    {
      assert !failed;
      PopKeepsOrder(queue, writes, accepted, written);
      if !ok {
        writes := writes[1..];
        failed := true;
        return true;
      }
      written := written + [writes[0]];
      writes := writes[1..];
      queue := queue[1..];
      if queue != [] {
        writes := writes + [queue[0]];
      }
      DrainedMeansTerminalWritten(queue, writes, accepted, written, terminal);
      closeNow := queue == [] && lifecycle.phase == Draining;
    }

    /** Close: only the call that wins the transition has effects. */
    method Close(spurious: nat) returns (first: bool)
      requires Valid()
      modifies this`removals, this`cleanups, lifecycle
      ensures Valid() && Continues()
      ensures first == (old(lifecycle.phase) in {Open, Draining})
      ensures lifecycle.phase == if first then Closing else old(lifecycle.phase)
      ensures removals == old(removals) + (if first then 1 else 0)
      ensures cleanups == old(cleanups) + (if first && uid > 0 then 1 else 0)
    {
      first := lifecycle.BeginClose(spurious);
      if first {
        removals := removals + 1;
        if uid > 0 {
          cleanups := cleanups + 1;
        }
      }
    }

    /** The socket shutdown that Close dispatches to the I/O thread. */
    method ShutDownSocket()
      requires Valid() && lifecycle.phase in {Closing, Closed}
      modifies this`socketOpen, lifecycle
      ensures Valid() && Continues() && !socketOpen && lifecycle.phase == Closed
    {
      socketOpen := false;
      var done := lifecycle.CompleteClose();
    }
  }

  // ---- ResourceServer ------------------------------------------------------------------------------------

  const HEAD_TOTAL_LEN: nat := 6
  const MAX_SEND_FRAMES: nat := 1024
  const MAX_SEND_BYTES: nat := 67108864
  const MAX_TASK_BYTES: nat := 8388608

  function Size(f: Frame): nat {
    HEAD_TOTAL_LEN + |f.body|
  }

  function TotalBytes(frames: seq<Frame>): nat {
    if frames == [] then 0 else Size(frames[0]) + TotalBytes(frames[1..])
  }

  function Sum(sizes: seq<nat>): nat {
    if sizes == [] then 0 else sizes[0] + Sum(sizes[1..])
  }

  function Without<T>(items: seq<T>, i: nat): (r: seq<T>)
    requires i < |items|
    ensures |r| == |items| - 1
  {
    items[..i] + items[i + 1..]
  }

  lemma {:induction false} BytesOfConcat(a: seq<Frame>, b: seq<Frame>)
    ensures TotalBytes(a + b) == TotalBytes(a) + TotalBytes(b)
  {
    if a == [] {
      assert a + b == b;
    } else {
      BytesOfConcat(a[1..], b);
      assert (a + b)[1..] == a[1..] + b;
    }
  }

  lemma BytesWithout(frames: seq<Frame>, i: nat)
    requires i < |frames|
    ensures TotalBytes(frames) == Size(frames[i]) + TotalBytes(Without(frames, i))
  {
    assert frames == frames[..i] + frames[i..];
    BytesOfConcat(frames[..i], frames[i..]);
    assert frames[i..][1..] == frames[i + 1..];
    BytesOfConcat(frames[..i], frames[i + 1..]);
  }

  lemma {:induction false} SumOfConcat(a: seq<nat>, b: seq<nat>)
    ensures Sum(a + b) == Sum(a) + Sum(b)
  {
    if a == [] {
      assert a + b == b;
    } else {
      SumOfConcat(a[1..], b);
      assert (a + b)[1..] == a[1..] + b;
    }
  }

  lemma SumWithout(sizes: seq<nat>, i: nat)
    requires i < |sizes|
    ensures Sum(sizes) == sizes[i] + Sum(Without(sizes, i))
  {
    assert sizes == sizes[..i] + sizes[i..];
    SumOfConcat(sizes[..i], sizes[i..]);
    assert sizes[i..][1..] == sizes[i + 1..];
    SumOfConcat(sizes[..i], sizes[i + 1..]);
  }

  class ResourceSession {
    const lifecycle: SessionLifecycle
    var socketOpen: bool
    var queue: seq<Frame>
    var writes: seq<Frame>
    var pendingFrames: nat
    var pendingBytes: nat
    /** Posted closures that still own an armed SendBudgetGuard. */
    var posted: seq<Frame>
    var inflight: nat
    /** Live SessionTaskQuota tokens. */
    var tokens: seq<nat>
    ghost var accepted: seq<Frame>
    ghost var written: seq<Frame>
    ghost var failed: bool
    ghost var terminal: Option<Frame>

    constructor ()
      ensures Valid() && fresh(lifecycle) && lifecycle.phase == Open && socketOpen
    {
      lifecycle := new SessionLifecycle();
      socketOpen, queue, writes, pendingFrames, pendingBytes := true, [], [], 0, 0;
      posted, inflight, tokens := [], 0, [];
      accepted, written, failed, terminal := [], [], false, None;
    }

    /** The counters are exactly what is queued plus what is still posted, within the limits. */
    ghost predicate BudgetOk()
      reads this
    {
      && pendingFrames == |queue| + |posted|
      && pendingBytes == TotalBytes(queue) + TotalBytes(posted)
      && pendingFrames <= MAX_SEND_FRAMES && pendingBytes <= MAX_SEND_BYTES
    }

    ghost predicate QuotaOk()
      reads this
    {
      inflight == Sum(tokens) <= MAX_TASK_BYTES
    }

    ghost predicate FlowOk()
      reads this, lifecycle
    {
      && (!failed ==> InOrder(queue, writes, accepted, written))
      && EndsWith(accepted, terminal)
      && (terminal.Some? ==> lifecycle.phase != Open)
      && (lifecycle.phase == Draining ==> terminal.Some?)
    }

    ghost predicate Valid()
      reads this, lifecycle
    {
      BudgetOk() && QuotaOk() && FlowOk()
    }

    twostate predicate Continues()
      reads this, lifecycle
    {
      && old(accepted) <= accepted && old(written) <= written
      && (old(terminal).Some? ==> terminal == old(terminal) && accepted == old(accepted))
      && (old(lifecycle.phase) != Open ==> accepted == old(accepted))
      && (old(failed) ==> failed)
    }

    method TryReserveSendBudget(size: nat) returns (ok: bool)
      modifies this`pendingFrames, this`pendingBytes
      ensures ok == (old(pendingFrames) < MAX_SEND_FRAMES && old(pendingBytes) + size <= MAX_SEND_BYTES)
      ensures pendingFrames == old(pendingFrames) + (if ok then 1 else 0)
      ensures pendingBytes == old(pendingBytes) + (if ok then size else 0)
    {
      if pendingFrames >= MAX_SEND_FRAMES || pendingBytes + size > MAX_SEND_BYTES {
        return false;
      }
      pendingFrames := pendingFrames + 1;
      pendingBytes := pendingBytes + size;
      return true;
    }

    /** The subtraction with its two underflow clamps. */
    method ReleaseSendBudget(size: nat)
      modifies this`pendingFrames, this`pendingBytes
      ensures pendingFrames == if old(pendingFrames) > 0 then old(pendingFrames) - 1 else 0
      ensures pendingBytes == if old(pendingBytes) >= size then old(pendingBytes) - size else 0
    {
      if pendingFrames > 0 {
        pendingFrames := pendingFrames - 1;
      }
      if pendingBytes >= size {
        pendingBytes := pendingBytes - size;
      } else {
        pendingBytes := 0;
      }
    }

    /** The caller's half of Send and SendAndClose; false tells it to close. */
    method Post(f: Frame) returns (ok: bool)
      requires Valid()
      modifies this`pendingFrames, this`pendingBytes, this`posted
      ensures Valid() && Continues()
      ensures ok == (old(pendingFrames) < MAX_SEND_FRAMES && old(pendingBytes) + Size(f) <= MAX_SEND_BYTES)
      ensures posted == if ok then old(posted) + [f] else old(posted)
    {
      ok := TryReserveSendBudget(Size(f));
      if ok {
        BytesOfConcat(posted, [f]);
        posted := posted + [f];
      }
    }

    /** A closure that ends without queueing its frame, or is destroyed unrun: the guard returns the
        reservation. */
    method ReturnReservation(i: nat)
      requires Valid() && i < |posted|
      modifies this`pendingFrames, this`pendingBytes, this`posted
      ensures Valid() && Continues() && posted == Without(old(posted), i)
      ensures pendingFrames == old(pendingFrames) - 1 && pendingBytes == old(pendingBytes) - Size(old(posted)[i])
    {
      BytesWithout(posted, i);
      ReleaseSendBudget(Size(posted[i]));
      posted := Without(posted, i);
    }

    /** The queue takes over the reservation of posted frame i. */
    method Push(i: nat)
      requires BudgetOk() && i < |posted|
      requires !failed ==> InOrder(queue, writes, accepted, written)
      modifies this`queue, this`writes, this`accepted, this`posted
      ensures BudgetOk()
      ensures queue == old(queue) + [old(posted)[i]] && accepted == old(accepted) + [old(posted)[i]]
      ensures posted == Without(old(posted), i)
      ensures !failed ==> InOrder(queue, writes, accepted, written)
    {
      BytesWithout(posted, i);
      BytesOfConcat(queue, [posted[i]]);
      queue := queue + [posted[i]];
      accepted := accepted + [posted[i]];
      posted := Without(posted, i);
      if |queue| == 1 {
        writes := writes + [queue[0]];
      }
    }

    /** The closure that Send posted. */
    method RunSend(i: nat) returns (queued: bool)
      requires Valid() && i < |posted|
      modifies this`queue, this`writes, this`accepted, this`posted, this`pendingFrames, this`pendingBytes
      ensures Valid() && Continues()
      ensures queued == (lifecycle.phase == Open && socketOpen)
      ensures posted == Without(old(posted), i)
      ensures accepted == if queued then old(accepted) + [old(posted)[i]] else old(accepted)
    {
      if lifecycle.phase != Open || !socketOpen {
        ReturnReservation(i);
        return false;
      }
      Push(i);
      return true;
    }

    /** The closure that SendAndClose posted; true tells the caller to close at once. */
    method RunSendAndClose(i: nat) returns (closeNow: bool)
      requires Valid() && i < |posted|
      modifies this`queue, this`writes, this`accepted, this`posted, this`pendingFrames, this`pendingBytes, this`terminal, lifecycle
      ensures Valid() && Continues()
      ensures closeNow == !socketOpen
      ensures posted == Without(old(posted), i)
      ensures var wins := socketOpen && old(lifecycle.phase) == Open;
              && terminal == (if wins then Some(old(posted)[i]) else old(terminal))
              && accepted == (if wins then old(accepted) + [old(posted)[i]] else old(accepted))
              && lifecycle.phase == (if wins then Draining else old(lifecycle.phase))
    {
      if !socketOpen {
        ReturnReservation(i);
        return true;
      }
      var won := lifecycle.BeginDrain();
      if !won {
        ReturnReservation(i);
        return false;
      }
      ghost var f := posted[i];
      Push(i);
      terminal := Some(f);
      return false;
    }

    /** The callback of a finished write; true tells the caller to close. */
    method HandleWrite(ok: bool) returns (closeNow: bool)
      requires Valid() && writes != []
      modifies this`queue, this`writes, this`written, this`failed, this`pendingFrames, this`pendingBytes
      ensures Valid() && Continues()
      ensures !ok ==> closeNow && failed && queue == [] && writes == old(writes)[1..]
      ensures ok ==> failed == old(failed) && queue == (if old(queue) == [] then [] else old(queue)[1..])
      ensures ok ==> (closeNow <==> queue == [] && lifecycle.phase == Draining)
      ensures ok && !failed ==> old(queue) != [] && written == old(written) + [old(queue)[0]]
      ensures ok && !failed && closeNow ==> terminal.Some? && EndsWith(written, terminal)
    {
      if ok {
        closeNow := WriteDone();
      } else {
        failed := true;
        writes := writes[1..];
        ClearSendQueue();
        closeNow := true;
      }
    }

    /** The catch block of HandleWrite: a write may still be in flight, and its callback comes later. */
    method WriteThrows()
      requires Valid()
      modifies this`queue, this`failed, this`pendingFrames, this`pendingBytes
      ensures Valid() && Continues() && failed && queue == [] && writes == old(writes) && posted == old(posted)
    {
      failed := true;
      ClearSendQueue();
    }

    /** After a write error the front may not be the frame that was written; the budget holds all the same. */
    method WriteDone() returns (closeNow: bool)
      requires Valid() && writes != []
      modifies this`queue, this`writes, this`written, this`pendingFrames, this`pendingBytes
      ensures Valid()
      ensures queue == (if old(queue) == [] then [] else old(queue)[1..])
      ensures closeNow <==> queue == [] && lifecycle.phase == Draining
      ensures written == old(written) + [old(writes)[0]]
      ensures !failed ==> old(queue) != [] && old(writes)[0] == old(queue)[0]
      ensures !failed && closeNow ==> terminal.Some? && EndsWith(written, terminal)
    {
      if !failed {
        PopKeepsOrder(queue, writes, accepted, written);
      }
      written := written + [writes[0]];
      writes := writes[1..];
      if queue != [] {
        PopFront();
      }
      if queue != [] {
        writes := writes + [queue[0]];
      }
      if !failed {
        DrainedMeansTerminalWritten(queue, writes, accepted, written, terminal);
      }
      closeNow := queue == [] && lifecycle.phase == Draining;
    }

    /** ClearSendQueueLocked. */
    method ClearSendQueue()
      requires BudgetOk()
      modifies this`queue, this`pendingFrames, this`pendingBytes
      ensures BudgetOk() && queue == []
    {
      while queue != []
        invariant BudgetOk()
        decreases |queue|
      {
        PopFront();
      }
    }

    /** A frame leaves the queue and returns its reservation; neither clamp is reached. */
    method PopFront()
      requires BudgetOk() && queue != []
      modifies this`queue, this`pendingFrames, this`pendingBytes
      ensures BudgetOk() && queue == old(queue)[1..]
      ensures pendingFrames == old(pendingFrames) - 1 && pendingBytes == old(pendingBytes) - Size(old(queue)[0])
    {
      BytesWithout(queue, 0);
      assert Without(queue, 0) == queue[1..];
      ReleaseSendBudget(Size(queue[0]));
      queue := queue[1..];
    }

    method Close(spurious: nat) returns (first: bool)
      requires Valid()
      modifies lifecycle
      ensures Valid() && Continues()
      ensures first == (old(lifecycle.phase) in {Open, Draining})
      ensures lifecycle.phase == if first then Closing else old(lifecycle.phase)
    {
      first := lifecycle.BeginClose(spurious);
    }

    /** TryAcquireTaskBytes and the token it makes.  `seen` is the possibly stale value loaded
        before the loop, `spurious` how often the exchange fails for no reason. */
    method AcquireTaskBytes(bytes: nat, seen: nat, spurious: nat) returns (ok: bool)
      requires Valid()
      modifies this`inflight, this`tokens
      ensures Valid()
      ensures ok ==> inflight == old(inflight) + bytes && tokens == old(tokens) + [bytes]
      ensures !ok ==> inflight == old(inflight) && tokens == old(tokens) && bytes > 0
      ensures !ok ==> seen + bytes > MAX_TASK_BYTES || inflight + bytes > MAX_TASK_BYTES
      ensures bytes == 0 || (seen <= inflight && old(inflight) + bytes <= MAX_TASK_BYTES) ==> ok
    {
      SumOfConcat(tokens, [bytes]);
      if bytes == 0 {
        tokens := tokens + [0];
        return true;
      }
      var current, failures := seen, spurious;
      while true
        invariant inflight == old(inflight) && tokens == old(tokens)
        invariant current == seen || current == inflight
        decreases if current == inflight then 0 else 1, failures
      {
        if current > MAX_TASK_BYTES || bytes > MAX_TASK_BYTES - current {
          return false;
        }
        if current == inflight && failures == 0 {
          inflight := current + bytes;
          tokens := tokens + [bytes];
          return true;
        }
        failures := if current == inflight then failures - 1 else failures;
        current := inflight;
      }
    }

    /** A token's destructor. */
    method ReleaseTaskBytes(i: nat)
      requires Valid() && i < |tokens|
      modifies this`inflight, this`tokens
      ensures Valid() && tokens == Without(old(tokens), i)
      ensures inflight == old(inflight) - old(tokens)[i]
    {
      SumWithout(tokens, i);
      inflight := inflight - tokens[i];
      tokens := Without(tokens, i);
    }
  }
}
