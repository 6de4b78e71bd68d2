/** Logins, kicks, closes and delayed clean-ups of one user across any number of chat servers
    (server/ChatServer/src/LogicSystem.cpp, CSession.cpp, UserMgr.cpp).

    Per server one worker runs the user's tasks in post order.  One step is one Redis call, one
    mutex-protected update or one queue operation; steps of all servers and of the I/O threads that
    close connections interleave freely.  Assumed, as the code intends: the Redis lock excludes and
    a clean-up gets it, Redis calls succeed, and the servers are not shutting down. */
module Presence {
  import opened Basics

  datatype Life = Open | Draining | Closing

  /** A session bound to the user owes one clean-up once it closes. */
  datatype Duty = NoDuty | Owed | Queued | Underway | Done

  datatype Session = Session(home: nat, life: Life, bound: bool, duty: Duty)

  /** `KickTask` is what NotifyKickUser posts for a login on another server, whose session is `origin`. */
  datatype Task = LoginTask(session: nat) | CleanupTask(session: nat) | KickTask(origin: nat)

  datatype LoginAt = Waiting | Holding | Kicked | Bound | IpSet | Listed | Named
  datatype CleanAt = Begun | Unlisted | Checking | Deleting | Finishing

  /** What the user's worker on one server is doing. */
  datatype Pc = Resting | InLogin(session: nat, login: LoginAt) | InCleanup(session: nat, cleanup: CleanAt)

  /** `online` is the user's entry in UserMgr. */
  datatype Server = Server(online: Option<nat>, queue: seq<Task>, pc: Pc)

  /** `uip` names a server and `usession` a session; `latest` is the session that was bound last
      and only serves the statements below. */
  datatype State = State(servers: seq<Server>, sessions: map<nat, Session>, uip: Option<nat>, usession: Option<nat>,
                         lock: Option<nat>, latest: Option<nat>)

  datatype Action =
    | Connect(session: nat, server: nat)
    | PostLogin(session: nat)
    | Drain(session: nat)
    | BeginClose(session: nat)
    | PostCleanup(session: nat)
    | Dequeue(server: nat)
    | LoginGivesUp(server: nat)
    | LoginStep(server: nat, delivered: bool)
    | CleanupStep(server: nat)

  // ---- Steps -------------------------------------------------------------------------------------------

  predicate HoldsLock(pc: Pc) {
    match pc
    case Resting => false
    case InLogin(_, at) => at != Waiting
    case InCleanup(_, at) => at in {Checking, Deleting, Finishing}
  }

  /** The worker of server `v` moves on; everything else about that server stays. */
  function Go(s: State, v: nat, pc: Pc): State
    requires v < |s.servers|
  {
    s.(servers := s.servers[v := s.servers[v].(pc := pc)])
  }

  function List(s: State, v: nat, online: Option<nat>): State
    requires v < |s.servers|
  {
    s.(servers := s.servers[v := s.servers[v].(online := online)])
  }

  function Enqueue(s: State, v: nat, task: Task): State
    requires v < |s.servers|
  {
    s.(servers := s.servers[v := s.servers[v].(queue := s.servers[v].queue + [task])])
  }

  function Update(s: State, x: nat, row: Session): State {
    s.(sessions := s.sessions[x := row])
  }

  /** NotifyOffline of whatever session UserMgr of server v lists at that moment, if it is another one
      than `own`. */
  function KickAt(s: State, v: nat, own: Option<nat>): State
    requires v < |s.servers|
  {
    match s.servers[v].online
    case None => s
    case Some(y) =>
      if s.servers[v].online != own && y in s.sessions && s.sessions[y].life == Open
      then Update(s, y, s.sessions[y].(life := Draining)) else s
  }

  /** A login finds the old session on another server, which lists one. */
  predicate KicksRemotely(s: State, v: nat) {
    && v < |s.servers| && s.servers[v].pc.InLogin? && s.servers[v].pc.login == Holding
    && s.uip.Some? && s.uip.value != v && s.uip.value < |s.servers| && s.servers[s.uip.value].online.Some?
  }

  ghost predicate ConnectionNext(s: State, action: Action, s': State) {
    match action
    case Connect(x, v) => x !in s.sessions && v < |s.servers| && s' == Update(s, x, Session(v, Open, false, NoDuty))
    case PostLogin(x) => x in s.sessions && s.sessions[x].home < |s.servers| && s' == Enqueue(s, s.sessions[x].home, LoginTask(x))
    case Drain(x) =>
      x in s.sessions && s.sessions[x].life == Open && s' == Update(s, x, s.sessions[x].(life := Draining))
    case BeginClose(x) =>
      && x in s.sessions && s.sessions[x].life != Closing
      && s' == Update(s, x, s.sessions[x].(life := Closing, duty := if s.sessions[x].bound then Owed else NoDuty))
    case PostCleanup(x) =>
      && x in s.sessions && s.sessions[x].duty == Owed && s.sessions[x].home < |s.servers|
      && s' == Update(Enqueue(s, s.sessions[x].home, CleanupTask(x)), x, s.sessions[x].(duty := Queued))
    case _ => false
  }

  ghost predicate DequeueNext(s: State, v: nat, s': State) {
    && v < |s.servers| && s.servers[v].pc == Resting && s.servers[v].queue != []
    && var task := s.servers[v].queue[0];
    && (task.KickTask? || task.session in s.sessions)
    && var s1 := s.(servers := s.servers[v := s.servers[v].(queue := s.servers[v].queue[1..])]);
    match task
    case LoginTask(x) => s' == Go(s1, v, InLogin(x, Waiting))
    case CleanupTask(x) => s' == Update(Go(s1, v, InCleanup(x, Begun)), x, s.sessions[x].(duty := Underway))
    case KickTask(_) => s' == KickAt(s1, v, None)
  }

  /** The locked section of LoginHandler.  A remote kick may fail to be delivered; delivered, it waits
      in the other server's queue. */
  ghost predicate LoginNext(s: State, v: nat, delivered: bool, s': State) {
    if delivered && KicksRemotely(s, v)
    then LoginMove(Enqueue(s, s.uip.value, KickTask(s.servers[v].pc.session)), v, s')
    else LoginMove(s, v, s')
  }

  ghost predicate LoginMove(s: State, v: nat, s': State) {
    && v < |s.servers| && s.servers[v].pc.InLogin? && s.servers[v].pc.session in s.sessions
    && var x := s.servers[v].pc.session;
    match s.servers[v].pc.login
    case Waiting => s.lock == None && s' == Go(s, v, InLogin(x, Holding)).(lock := Some(v))
    case Holding => s' == Go(if s.uip == Some(v) then KickAt(s, v, Some(x)) else s, v, InLogin(x, Kicked))
    case Kicked =>
      if s.sessions[x].life == Open && !s.sessions[x].bound then
        s' == Update(Go(s, v, InLogin(x, Bound)), x, s.sessions[x].(bound := true)).(latest := Some(x))
      else s' == Go(s, v, Resting).(lock := None)
    case Bound => s' == Go(s, v, InLogin(x, IpSet)).(uip := Some(v))
    case IpSet => s' == Go(List(s, v, Some(x)), v, InLogin(x, Listed))
    case Listed => s' == Go(s, v, InLogin(x, Named)).(usession := Some(x))
    case Named => s' == Go(s, v, Resting).(lock := None)
  }

  /** CleanupUserPresence. */
  ghost predicate CleanupNext(s: State, v: nat, s': State) {
    && v < |s.servers| && s.servers[v].pc.InCleanup? && s.servers[v].pc.session in s.sessions
    && var x := s.servers[v].pc.session;
    match s.servers[v].pc.cleanup
    case Begun =>
      s' == Go(List(s, v, if s.servers[v].online == Some(x) then None else s.servers[v].online), v, InCleanup(x, Unlisted))
    case Unlisted => s.lock == None && s' == Go(s, v, InCleanup(x, Checking)).(lock := Some(v))
    case Checking =>
      s' == if s.usession == Some(x) then Go(s, v, InCleanup(x, Deleting)).(usession := None)
            else Go(s, v, InCleanup(x, Finishing))
    case Deleting => s' == Go(s, v, InCleanup(x, Finishing)).(uip := None)
    case Finishing => s' == Update(Go(s, v, Resting).(lock := None), x, s.sessions[x].(duty := Done))
  }

  ghost predicate Step(s: State, action: Action, s': State) {
    match action
    case Dequeue(v) => DequeueNext(s, v, s')
    case LoginGivesUp(v) => v < |s.servers| && s.servers[v].pc.InLogin? && s.servers[v].pc.login == Waiting && s' == Go(s, v, Resting)
    case LoginStep(v, delivered) => LoginNext(s, v, delivered, s')
    case CleanupStep(v) => CleanupNext(s, v, s')
    case _ => ConnectionNext(s, action, s')
  }

  ghost predicate Init(s: State) {
    && s == State(s.servers, map[], None, None, None, None)
    && forall v :: 0 <= v < |s.servers| ==> s.servers[v] == Server(None, [], Resting)
  }

  ghost predicate IsRun(states: seq<State>, actions: seq<Action>) {
    && |states| == |actions| + 1
    && Init(states[0])
    && forall i :: 0 <= i < |actions| ==> Step(states[i], actions[i], states[i + 1])
  }

  // ---- Invariant -----------------------------------------------------------------------------------------

  predicate PcOf(s: State, x: nat, pc: Pc) {
    x in s.sessions && s.sessions[x].home < |s.servers| && s.servers[s.sessions[x].home].pc == pc
  }

  /** The clean-up of x has passed its removal from UserMgr, or is over. */
  predicate IsUnlisted(s: State, x: nat) {
    && x in s.sessions && s.sessions[x].home < |s.servers|
    && (s.sessions[x].duty == Done
        || (s.sessions[x].duty == Underway && s.servers[s.sessions[x].home].pc.InCleanup?
            && s.servers[s.sessions[x].home].pc.cleanup != Begun))
  }

  /** The clean-up of x has passed the deletion of usession. */
  predicate IsForgotten(s: State, x: nat) {
    && x in s.sessions && s.sessions[x].home < |s.servers|
    && (s.sessions[x].duty == Done
        || (s.sessions[x].duty == Underway && s.servers[s.sessions[x].home].pc.InCleanup?
            && s.servers[s.sessions[x].home].pc.cleanup in {Deleting, Finishing}))
  }

  /** A login has bound its session and is still writing the entries. */
  predicate IsWriting(pc: Pc) {
    pc.InLogin? && pc.login in {Bound, IpSet, Listed}
  }

  /** No login is between its binding and its last entry. */
  predicate Quiet(s: State) {
    s.lock.Some? && s.lock.value < |s.servers| ==> !IsWriting(s.servers[s.lock.value].pc)
  }

  ghost predicate SessionOk(s: State, x: nat)
    requires x in s.sessions
  {
    var row := s.sessions[x];
    && row.home < |s.servers|
    && (row.duty == NoDuty <==> !row.bound || row.life != Closing)
    && (row.duty == Underway <==> s.servers[row.home].pc.InCleanup? && s.servers[row.home].pc.session == x)
    && (row.duty == Queued <==> CleanupTask(x) in s.servers[row.home].queue)
  }

  ghost predicate QueueOk(s: State, v: nat)
    requires v < |s.servers|
  {
    var queue := s.servers[v].queue;
    && (forall i :: 0 <= i < |queue| && !queue[i].KickTask? ==> queue[i].session in s.sessions && s.sessions[queue[i].session].home == v)
    && (forall i, j :: 0 <= i < j < |queue| && queue[i].CleanupTask? ==> queue[i] != queue[j])
  }

  ghost predicate PcOk(s: State, v: nat)
    requires v < |s.servers|
  {
    var pc := s.servers[v].pc;
    && (pc.Resting? || (pc.session in s.sessions && s.sessions[pc.session].home == v))
    && (HoldsLock(pc) <==> s.lock == Some(v))
    && (IsWriting(pc) ==> s.latest == Some(pc.session) && s.sessions[pc.session].bound && s.sessions[pc.session].duty != Done)
    && (pc.InLogin? && pc.login in {IpSet, Listed} ==> s.uip == Some(v))
    && (pc.InLogin? && pc.login == Listed ==> s.servers[v].online == Some(pc.session))
    && (pc.InCleanup? && pc.cleanup == Deleting ==> s.latest == Some(pc.session))
  }

  ghost predicate OnlineOk(s: State, v: nat)
    requires v < |s.servers|
  {
    s.servers[v].online.Some? ==>
      var x := s.servers[v].online.value;
      x in s.sessions && s.sessions[x].home == v && s.sessions[x].bound && !IsUnlisted(s, x)
  }

  /** usession never names a session that was cleaned up. */
  ghost predicate NameOk(s: State) {
    s.usession.Some? ==> s.usession.value in s.sessions && !IsForgotten(s, s.usession.value)
  }

  /** The latest session's own entries. */
  ghost predicate LatestOk(s: State) {
    match s.latest
    case None => s.usession == None && s.uip == None
    case Some(x) =>
      && x in s.sessions && s.sessions[x].bound && s.sessions[x].home < |s.servers|
      && var pc := s.servers[s.sessions[x].home].pc;
      && (Quiet(s) ==> s.usession == (if IsForgotten(s, x) then None else Some(x)))
      && (Quiet(s) ==> s.uip == (if IsForgotten(s, x) && !(pc == InCleanup(x, Deleting)) then None else Some(s.sessions[x].home)))
      && (pc != InLogin(x, Bound) && pc != InLogin(x, IpSet) ==>
            s.servers[s.sessions[x].home].online == if IsUnlisted(s, x) then None else Some(x))
  }

  ghost predicate Inv(s: State) {
    && (forall x :: x in s.sessions ==> SessionOk(s, x))
    && (forall v :: 0 <= v < |s.servers| ==> QueueOk(s, v))
    && (forall v :: 0 <= v < |s.servers| ==> PcOk(s, v))
    && (forall v :: 0 <= v < |s.servers| ==> OnlineOk(s, v))
    && NameOk(s) && LatestOk(s)
  }

  // ---- Preservation --------------------------------------------------------------------------------------

  /** A change of one connection that concerns neither its clean-up nor its entries. */
  ghost predicate RowChange(s: State, x: nat, s': State) {
    && x in s'.sessions
    && s' == Update(s.(servers := s'.servers), x, s'.sessions[x])
    && |s'.servers| == |s.servers|
    && (forall v :: 0 <= v < |s.servers| ==> s'.servers[v] == s.servers[v].(queue := s'.servers[v].queue))
    && if x !in s.sessions then s'.sessions[x].duty == NoDuty
       else
         && s'.sessions[x].home == s.sessions[x].home && s'.sessions[x].bound == s.sessions[x].bound
         && (s'.sessions[x].duty == s.sessions[x].duty || (s.sessions[x].duty in {NoDuty, Owed} && s'.sessions[x].duty in {Owed, Queued}))
  }

  lemma RowChangeKeepsEntries(s: State, x: nat, s': State)
    requires Inv(s) && RowChange(s, x, s')
    ensures forall v :: 0 <= v < |s'.servers| ==> PcOk(s', v) && OnlineOk(s', v)
    ensures NameOk(s') && LatestOk(s')
  {
    forall v | 0 <= v < |s'.servers| ensures PcOk(s', v) && OnlineOk(s', v) {
      assert PcOk(s, v) && OnlineOk(s, v);
    }
    if s.latest.Some? {
      assert forall v :: 0 <= v < |s.servers| ==> s'.servers[v].pc == s.servers[v].pc;
      assert Quiet(s') ==> Quiet(s);
      assert IsForgotten(s', s.latest.value) == IsForgotten(s, s.latest.value);
      assert IsUnlisted(s', s.latest.value) == IsUnlisted(s, s.latest.value);
    }
  }

  lemma SessionsFollow(s: State, x: nat, s': State)
    requires Inv(s) && RowChange(s, x, s') && SessionOk(s', x)
    requires forall y :: y in s.sessions && y != x && s.sessions[y].home < |s.servers| ==>
               (CleanupTask(y) in s'.servers[s.sessions[y].home].queue <==> CleanupTask(y) in s.servers[s.sessions[y].home].queue)
    ensures forall y :: y in s'.sessions ==> SessionOk(s', y)
  {
    forall y | y in s'.sessions ensures SessionOk(s', y) {
      if y != x {
        assert SessionOk(s, y);
      }
    }
  }

  lemma ConnectionKeepsQueues(s: State, action: Action, s': State)
    requires Inv(s) && ConnectionNext(s, action, s')
    ensures forall v :: 0 <= v < |s'.servers| ==> QueueOk(s', v)
  {
    if !action.Connect? {
      assert SessionOk(s, action.session);
    }
    forall v | 0 <= v < |s'.servers| ensures QueueOk(s', v) {
      assert QueueOk(s, v);
    }
  }

  lemma ConnectionChangesRow(s: State, action: Action, s': State)
    requires Inv(s) && ConnectionNext(s, action, s')
    ensures RowChange(s, action.session, s') && SessionOk(s', action.session)
  {
    if action.Connect? {
      assert QueueOk(s, action.server) && PcOk(s, action.server);
    } else {
      assert SessionOk(s, action.session);
    }
  }

  lemma ConnectionKeepsInv(s: State, action: Action, s': State)
    requires Inv(s) && ConnectionNext(s, action, s')
    ensures Inv(s')
  {
    ConnectionChangesRow(s, action, s');
    ConnectionKeepsQueues(s, action, s');
    RowChangeKeepsEntries(s, action.session, s');
    SessionsFollow(s, action.session, s');
  }

  /** Only the worker of server v moves, and it touches the shared entries only under the lock. */
  ghost predicate WorkerMoves(s: State, v: nat, s': State) {
    && v < |s.servers| == |s'.servers|
    && (forall w :: 0 <= w < |s.servers| && w != v ==> s'.servers[w] == s.servers[w])
    && s'.sessions.Keys == s.sessions.Keys
    && (forall x :: x in s.sessions ==>
          && s'.sessions[x].home == s.sessions[x].home && (s.sessions[x].bound ==> s'.sessions[x].bound)
          && (s.sessions[x].home != v ==> s'.sessions[x] == s.sessions[x].(life := s'.sessions[x].life)))
    && (s'.lock == s.lock || (s.lock in {None, Some(v)} && s'.lock in {None, Some(v)}))
    && (s.lock != Some(v) ==> s'.latest == s.latest && s'.uip == s.uip && s'.usession == s.usession)
  }

  lemma OthersFollow(s: State, v: nat, s': State, w: nat)
    requires Inv(s) && WorkerMoves(s, v, s') && w < |s.servers| && w != v
    ensures PcOk(s', w) && QueueOk(s', w) && OnlineOk(s', w)
  {
    assert PcOk(s, v) && PcOk(s, w) && QueueOk(s, w) && OnlineOk(s, w);
  }

  /** What is left to show when one worker moves. */
  lemma WorkerKeepsInv(s: State, v: nat, s': State)
    requires Inv(s) && WorkerMoves(s, v, s')
    requires PcOk(s', v) && QueueOk(s', v) && OnlineOk(s', v) && NameOk(s') && LatestOk(s')
    requires forall x :: x in s'.sessions ==> SessionOk(s', x)
    ensures Inv(s')
  {
    forall w | 0 <= w < |s'.servers| ensures PcOk(s', w) && QueueOk(s', w) && OnlineOk(s', w) {
      if w != v {
        OthersFollow(s, v, s', w);
      }
    }
  }

  lemma DequeueKeepsSessions(s: State, v: nat, s': State)
    requires Inv(s) && DequeueNext(s, v, s')
    ensures forall x :: x in s'.sessions ==> SessionOk(s', x)
  {
    assert PcOk(s, v) && QueueOk(s, v);
    assert s.servers[v].queue == [s.servers[v].queue[0]] + s'.servers[v].queue;
    forall x | x in s'.sessions ensures SessionOk(s', x) {
      assert SessionOk(s, x);
    }
  }

  lemma DequeueKeepsServer(s: State, v: nat, s': State)
    requires v < |s.servers| && PcOk(s, v) && QueueOk(s, v) && OnlineOk(s, v) && DequeueNext(s, v, s')
    requires !s.servers[v].queue[0].KickTask? ==> SessionOk(s, s.servers[v].queue[0].session)
    ensures WorkerMoves(s, v, s') && PcOk(s', v) && QueueOk(s', v) && OnlineOk(s', v)
  {
  }

  lemma DequeueKeepsInv(s: State, v: nat, s': State)
    requires Inv(s) && DequeueNext(s, v, s')
    ensures Inv(s')
  {
    assert PcOk(s, v) && QueueOk(s, v) && OnlineOk(s, v);
    DequeueKeepsSessions(s, v, s');
    DequeueKeepsServer(s, v, s');
    DequeueKeepsName(s, v, s');
    DequeueKeepsLatest(s, v, s');
    WorkerKeepsInv(s, v, s');
  }

  lemma DequeueKeepsName(s: State, v: nat, s': State)
    requires Inv(s) && DequeueNext(s, v, s')
    ensures NameOk(s')
  {
    assert PcOk(s, v) && QueueOk(s, v);
    if s.usession.Some? {
      assert SessionOk(s, s.usession.value);
    }
  }

  lemma DequeueKeepsLatest(s: State, v: nat, s': State)
    requires v < |s.servers| && PcOk(s, v) && QueueOk(s, v) && LatestOk(s) && DequeueNext(s, v, s')
    requires s.latest.Some? ==> SessionOk(s, s.latest.value)
    ensures LatestOk(s')
  {
    if s.servers[v].queue[0].KickTask? {
      KickKeepsLatest(s, v, s');
    } else {
      assert s'.servers[v].online == s.servers[v].online;
    }
  }

  lemma KickKeepsLatest(s: State, v: nat, s': State)
    requires v < |s.servers| && LatestOk(s) && DequeueNext(s, v, s') && s.servers[v].queue[0].KickTask?
    ensures LatestOk(s')
  {
  }

  lemma LoginMoves(s: State, v: nat, s': State)
    requires v < |s.servers| && PcOk(s, v) && LoginMove(s, v, s')
    ensures WorkerMoves(s, v, s')
  {
  }

  lemma LoginKeepsSessions(s: State, v: nat, s': State)
    requires Inv(s) && LoginMove(s, v, s')
    ensures forall x :: x in s'.sessions ==> SessionOk(s', x)
  {
    forall x | x in s'.sessions ensures SessionOk(s', x) {
      assert SessionOk(s, x);
    }
  }

  lemma LoginKeepsServer(s: State, v: nat, s': State)
    requires v < |s.servers| && PcOk(s, v) && QueueOk(s, v) && OnlineOk(s, v) && LoginMove(s, v, s')
    requires SessionOk(s, s.servers[v].pc.session)
    ensures v < |s'.servers| && PcOk(s', v) && QueueOk(s', v) && OnlineOk(s', v)
  {
  }

  lemma LoginMoveKeepsInv(s: State, v: nat, s': State)
    requires Inv(s) && LoginMove(s, v, s')
    ensures Inv(s')
  {
    assert PcOk(s, v) && QueueOk(s, v) && OnlineOk(s, v) && SessionOk(s, s.servers[v].pc.session);
    LoginMoves(s, v, s');
    LoginKeepsSessions(s, v, s');
    LoginKeepsServer(s, v, s');
    LoginKeepsName(s, v, s');
    LoginKeepsLatest(s, v, s');
    WorkerKeepsInv(s, v, s');
  }

  /** A kick in a queue changes nothing yet. */
  lemma KickTaskKeepsInv(s: State, u: nat, x: nat)
    requires Inv(s) && u < |s.servers| && x in s.sessions
    ensures Inv(Enqueue(s, u, KickTask(x)))
  {
    var s' := Enqueue(s, u, KickTask(x));
    assert s'.sessions[x := s.sessions[x]] == s.sessions;
    assert SessionOk(s, x);
    RowChangeKeepsEntries(s, x, s');
    SessionsFollow(s, x, s');
    forall v | 0 <= v < |s'.servers| ensures QueueOk(s', v) {
      assert QueueOk(s, v);
    }
  }

  lemma LoginKeepsInv(s: State, v: nat, delivered: bool, s': State)
    requires Inv(s) && LoginNext(s, v, delivered, s')
    ensures Inv(s')
  {
    if delivered && KicksRemotely(s, v) {
      assert PcOk(s, v);
      KickTaskKeepsInv(s, s.uip.value, s.servers[v].pc.session);
      LoginMoveKeepsInv(Enqueue(s, s.uip.value, KickTask(s.servers[v].pc.session)), v, s');
    } else {
      LoginMoveKeepsInv(s, v, s');
    }
  }

  lemma LoginKeepsName(s: State, v: nat, s': State)
    requires Inv(s) && LoginMove(s, v, s')
    ensures NameOk(s')
  {
    assert PcOk(s, v) && QueueOk(s, v);
    if s.usession.Some? {
      assert SessionOk(s, s.usession.value);
    }
  }

  /** A login that binds its session becomes the latest; one that does not leaves the entries alone. */
  lemma EarlyLoginKeepsLatest(s: State, v: nat, s': State)
    requires v < |s.servers| && PcOk(s, v) && LatestOk(s) && LoginMove(s, v, s') && s.servers[v].pc.login in {Waiting, Holding, Kicked}
    requires SessionOk(s, s.servers[v].pc.session) && (s.latest.Some? ==> SessionOk(s, s.latest.value))
    ensures LatestOk(s')
  {
  }

  lemma LateLoginKeepsLatest(s: State, v: nat, s': State)
    requires v < |s.servers| && PcOk(s, v) && LatestOk(s) && LoginMove(s, v, s') && s.servers[v].pc.login in {Bound, IpSet, Listed, Named}
    requires SessionOk(s, s.servers[v].pc.session) && (s.latest.Some? ==> SessionOk(s, s.latest.value))
    ensures LatestOk(s')
  {
  }

  lemma LoginKeepsLatest(s: State, v: nat, s': State)
    requires v < |s.servers| && PcOk(s, v) && LatestOk(s) && LoginMove(s, v, s')
    requires SessionOk(s, s.servers[v].pc.session) && (s.latest.Some? ==> SessionOk(s, s.latest.value))
    ensures LatestOk(s')
  {
    if s.servers[v].pc.login in {Waiting, Holding, Kicked} {
      EarlyLoginKeepsLatest(s, v, s');
    } else {
      LateLoginKeepsLatest(s, v, s');
    }
  }

  lemma CleanupKeepsSessions(s: State, v: nat, s': State)
    requires Inv(s) && CleanupNext(s, v, s')
    ensures forall x :: x in s'.sessions ==> SessionOk(s', x)
  {
    assert PcOk(s, v);
    forall x | x in s'.sessions ensures SessionOk(s', x) {
      assert SessionOk(s, x);
    }
  }

  lemma CleanupKeepsServer(s: State, v: nat, s': State)
    requires v < |s.servers| && PcOk(s, v) && QueueOk(s, v) && OnlineOk(s, v) && LatestOk(s) && CleanupNext(s, v, s')
    requires SessionOk(s, s.servers[v].pc.session)
    requires s.servers[v].online.Some? ==> SessionOk(s, s.servers[v].online.value)
    ensures v < |s'.servers| && PcOk(s', v) && QueueOk(s', v) && OnlineOk(s', v)
  {
    CleanupKeepsPc(s, v, s');
  }

  lemma CleanupKeepsPc(s: State, v: nat, s': State)
    requires v < |s.servers| && PcOk(s, v) && LatestOk(s) && CleanupNext(s, v, s')
    ensures v < |s'.servers| && PcOk(s', v)
  {
  }

  lemma CleanupMoves(s: State, v: nat, s': State)
    requires v < |s.servers| && PcOk(s, v) && CleanupNext(s, v, s')
    ensures WorkerMoves(s, v, s')
  {
  }

  lemma CleanupKeepsInv(s: State, v: nat, s': State)
    requires Inv(s) && CleanupNext(s, v, s')
    ensures Inv(s')
  {
    assert PcOk(s, v) && QueueOk(s, v) && OnlineOk(s, v) && SessionOk(s, s.servers[v].pc.session);
    CleanupMoves(s, v, s');
    CleanupKeepsSessions(s, v, s');
    CleanupKeepsServer(s, v, s');
    CleanupKeepsName(s, v, s');
    CleanupKeepsLatest(s, v, s');
    WorkerKeepsInv(s, v, s');
  }

  lemma CleanupKeepsName(s: State, v: nat, s': State)
    requires Inv(s) && CleanupNext(s, v, s')
    ensures NameOk(s')
  {
    assert PcOk(s, v) && QueueOk(s, v);
    if s.usession.Some? {
      assert SessionOk(s, s.usession.value);
    }
  }

  lemma EarlyCleanupKeepsLatest(s: State, v: nat, s': State)
    requires v < |s.servers| && PcOk(s, v) && OnlineOk(s, v) && LatestOk(s) && CleanupNext(s, v, s') && s.servers[v].pc.cleanup in {Begun, Unlisted}
    requires SessionOk(s, s.servers[v].pc.session) && (s.latest.Some? ==> SessionOk(s, s.latest.value))
    ensures LatestOk(s')
  {
  }

  lemma LateCleanupKeepsLatest(s: State, v: nat, s': State)
    requires v < |s.servers| && PcOk(s, v) && OnlineOk(s, v) && LatestOk(s) && CleanupNext(s, v, s') && s.servers[v].pc.cleanup in {Checking, Deleting, Finishing}
    requires SessionOk(s, s.servers[v].pc.session) && (s.latest.Some? ==> SessionOk(s, s.latest.value))
    ensures LatestOk(s')
  {
  }

  lemma CleanupKeepsLatest(s: State, v: nat, s': State)
    requires v < |s.servers| && PcOk(s, v) && OnlineOk(s, v) && LatestOk(s) && CleanupNext(s, v, s')
    requires SessionOk(s, s.servers[v].pc.session) && (s.latest.Some? ==> SessionOk(s, s.latest.value))
    ensures LatestOk(s')
  {
    if s.servers[v].pc.cleanup in {Begun, Unlisted} {
      EarlyCleanupKeepsLatest(s, v, s');
    } else {
      LateCleanupKeepsLatest(s, v, s');
    }
  }

  lemma GiveUpKeepsInv(s: State, v: nat, s': State)
    requires Inv(s) && v < |s.servers| && s.servers[v].pc.InLogin? && s.servers[v].pc.login == Waiting && s' == Go(s, v, Resting)
    ensures Inv(s')
  {
    assert PcOk(s, v) && QueueOk(s, v) && OnlineOk(s, v);
    forall x | x in s'.sessions ensures SessionOk(s', x) {
      assert SessionOk(s, x);
    }
    WorkerKeepsInv(s, v, s');
  }

  lemma StepKeepsInv(s: State, action: Action, s': State)
    requires Inv(s) && Step(s, action, s')
    ensures Inv(s')
  {
    match action
    case Dequeue(v) => DequeueKeepsInv(s, v, s');
    case LoginGivesUp(v) => GiveUpKeepsInv(s, v, s');
    case LoginStep(v, delivered) => LoginKeepsInv(s, v, delivered, s');
    case CleanupStep(v) => CleanupKeepsInv(s, v, s');
    case _ => ConnectionKeepsInv(s, action, s');
  }

  lemma {:induction false} RunKeepsInv(states: seq<State>, actions: seq<Action>, i: nat)
    requires IsRun(states, actions) && i < |states|
    ensures Inv(states[i])
  {
    if i > 0 {
      RunKeepsInv(states, actions, i - 1);
      StepKeepsInv(states[i - 1], actions[i - 1], states[i]);
    }
  }

  // ---- Theorems --------------------------------------------------------------------------------------------

  /** Whatever clean-ups of older sessions are still under way anywhere, the session that logged in
      last keeps all its entries until its own clean-up starts. */
  lemma LatestStaysRegistered(states: seq<State>, actions: seq<Action>, i: nat, x: nat)
    requires IsRun(states, actions) && i < |states| && states[i].latest == Some(x) && Quiet(states[i])
    requires x in states[i].sessions ==> states[i].sessions[x].duty in {NoDuty, Owed, Queued}
    ensures var s := states[i];
            && x in s.sessions && s.sessions[x].home < |s.servers|
            && s.usession == Some(x) && s.uip == Some(s.sessions[x].home)
            && s.servers[s.sessions[x].home].online == Some(x)
  {
    RunKeepsInv(states, actions, i);
    var s := states[i];
    assert SessionOk(s, x);
    assert PcOk(s, s.sessions[x].home);
  }

  /** Once a session's clean-up has run no entry names it, and none names its server if it was the
      last one to log in. */
  lemma CleanedUpIsGone(states: seq<State>, actions: seq<Action>, i: nat, x: nat)
    requires IsRun(states, actions) && i < |states|
    requires x in states[i].sessions && states[i].sessions[x].duty == Done
    ensures var s := states[i];
            && s.usession != Some(x)
            && (forall v :: 0 <= v < |s.servers| ==> s.servers[v].online != Some(x))
            && (s.latest == Some(x) ==> s.usession == None && s.uip == None)
  {
    RunKeepsInv(states, actions, i);
    var s := states[i];
    assert SessionOk(s, x);
    forall v | 0 <= v < |s.servers| ensures s.servers[v].online != Some(x) {
      assert OnlineOk(s, v);
    }
    if s.latest == Some(x) && s.lock.Some? && s.lock.value < |s.servers| {
      assert PcOk(s, s.lock.value);
    }
  }

  /** A step of the clean-up of x removes entries of x only. */
  lemma CleanupRemovesOnlyItsOwn(states: seq<State>, actions: seq<Action>, i: nat, v: nat)
    requires IsRun(states, actions) && i < |actions| && actions[i] == CleanupStep(v)
    ensures v < |states[i].servers| && states[i].servers[v].pc.InCleanup?
    ensures var s, s', x := states[i], states[i + 1], states[i].servers[v].pc.session;
            && |s'.servers| == |s.servers|
            && (s'.usession == s.usession || (s.usession == Some(x) && s'.usession == None))
            && (s'.uip == s.uip || (s.latest == Some(x) && s.uip == Some(s.sessions[x].home) && s'.uip == None))
            && (forall w :: 0 <= w < |s.servers| ==>
                  s'.servers[w].online == s.servers[w].online || (s.servers[w].online == Some(x) && s'.servers[w].online == None))
  {
    RunKeepsInv(states, actions, i);
    var s, s' := states[i], states[i + 1];
    assert Step(s, actions[i], s');
    assert PcOk(s, v);
    assert SessionOk(s, s.servers[v].pc.session);
  }

  // ---- Whom a kick hits --------------------------------------------------------------------------------------

  /** A login that holds the lock addresses its kick to the server of the session that logged in last,
      and that server lists this session unless its clean-up has already started.  When it is the
      login's own server, the session is kicked on the spot. */
  lemma KickIsAddressedToThePredecessor(states: seq<State>, actions: seq<Action>, i: nat, v: nat, x: nat)
    requires IsRun(states, actions) && i < |states| && v < |states[i].servers| && states[i].servers[v].pc == InLogin(x, Holding)
    ensures var s := states[i];
            && (s.uip.Some? ==> s.uip.value < |s.servers| && s.latest.Some?)
            && (s.uip.Some? && s.servers[s.uip.value].online.Some? ==> s.servers[s.uip.value].online == s.latest)
            && (s.latest.Some? && s.latest.value in s.sessions && s.sessions[s.latest.value].duty in {NoDuty, Owed, Queued} ==>
                  s.uip == Some(s.sessions[s.latest.value].home) && s.servers[s.uip.value].online == s.latest)
  {
    RunKeepsInv(states, actions, i);
    var s := states[i];
    assert PcOk(s, v);
    if s.latest.Some? {
      assert SessionOk(s, s.latest.value);
      assert PcOk(s, s.sessions[s.latest.value].home);
    }
  }

  /** The action takes the entry of session p on server v away: a login there lists another session,
      or p's own clean-up unlists it. */
  predicate Displaces(s: State, action: Action, v: nat, p: nat) {
    && v < |s.servers|
    && ((action.LoginStep? && action.server == v && s.servers[v].pc.InLogin? && s.servers[v].pc.login == IpSet)
        || (action == CleanupStep(v) && s.servers[v].pc == InCleanup(p, Begun)))
  }

  /** Session p is bound and no login is about to list it. */
  ghost predicate IsSettled(s: State, p: nat) {
    && p in s.sessions && s.sessions[p].bound
    && forall w :: 0 <= w < |s.servers| ==> s.servers[w].pc != InLogin(p, Bound) && s.servers[w].pc != InLogin(p, IpSet)
  }

  lemma LoginKeepsSettled(s: State, v: nat, delivered: bool, s': State, p: nat)
    requires IsSettled(s, p) && LoginNext(s, v, delivered, s')
    ensures IsSettled(s', p)
  {
  }

  lemma StepKeepsSettled(s: State, action: Action, s': State, p: nat)
    requires IsSettled(s, p) && Step(s, action, s')
    ensures IsSettled(s', p)
  {
    if action.LoginStep? {
      LoginKeepsSettled(s, action.server, action.delivered, s', p);
    }
  }

  /** One step: the entry of p goes exactly with a displacing action, and never comes back. */
  lemma EntryGoesIff(s: State, action: Action, s': State, v: nat, p: nat)
    requires IsSettled(s, p) && Step(s, action, s') && v < |s.servers|
    ensures |s'.servers| == |s.servers|
    ensures s'.servers[v].online == Some(p) <==> s.servers[v].online == Some(p) && !Displaces(s, action, v, p)
  {
    if action.LoginStep? {
      LoginEntry(s, action.server, action.delivered, s', v);
    } else if action.CleanupStep? {
      CleanupEntry(s, action.server, s', v);
    } else {
      QuietEntry(s, action, s', v);
    }
  }

  lemma LoginEntry(s: State, w: nat, delivered: bool, s': State, v: nat)
    requires LoginNext(s, w, delivered, s') && v < |s.servers|
    ensures |s'.servers| == |s.servers| && w < |s.servers| && s.servers[w].pc.InLogin?
    ensures s'.servers[v].online ==
              if w == v && s.servers[w].pc.login == IpSet then Some(s.servers[w].pc.session) else s.servers[v].online
  {
  }

  lemma CleanupEntry(s: State, w: nat, s': State, v: nat)
    requires CleanupNext(s, w, s') && v < |s.servers|
    ensures |s'.servers| == |s.servers| && w < |s.servers| && s.servers[w].pc.InCleanup?
    ensures s'.servers[v].online ==
              if w == v && s.servers[w].pc.cleanup == Begun && s.servers[v].online == Some(s.servers[w].pc.session)
              then None else s.servers[v].online
  {
  }

  lemma QuietEntry(s: State, action: Action, s': State, v: nat)
    requires Step(s, action, s') && !action.LoginStep? && !action.CleanupStep? && v < |s.servers|
    ensures |s'.servers| == |s.servers| && s'.servers[v].online == s.servers[v].online
  {
  }

  /** A kick that was posted while the lock was held, for the session p that server v then listed,
      finds p when it runs at step j if and only if no login has listed itself there and p's own
      clean-up has not unlisted it in between. */
  lemma {:induction false} LateKickFindsIff(states: seq<State>, actions: seq<Action>, i: nat, j: nat, v: nat, p: nat)
    requires IsRun(states, actions) && i <= j < |states| && IsSettled(states[i], p)
    requires v < |states[i].servers| && states[i].servers[v].online == Some(p)
    ensures IsSettled(states[j], p) && |states[j].servers| == |states[i].servers|
    ensures states[j].servers[v].online == Some(p) <==> forall k :: i <= k < j ==> !Displaces(states[k], actions[k], v, p)
    decreases j
  {
    if i < j {
      LateKickFindsIff(states, actions, i, j - 1, v, p);
      assert Step(states[j - 1], actions[j - 1], states[j]);
      StepKeepsSettled(states[j - 1], actions[j - 1], states[j], p);
      EntryGoesIff(states[j - 1], actions[j - 1], states[j], v, p);
    }
  }

  /** The premise of LateKickFindsIff holds whenever a remote kick is posted. */
  lemma PostedKickNamesASettledSession(states: seq<State>, actions: seq<Action>, i: nat, w: nat)
    requires IsRun(states, actions) && i < |states| && KicksRemotely(states[i], w)
    ensures states[i].latest.Some? && IsSettled(states[i], states[i].latest.value)
    ensures states[i].uip.value < |states[i].servers| && states[i].servers[states[i].uip.value].online == states[i].latest
  {
    RunKeepsInv(states, actions, i);
    var s := states[i];
    KickIsAddressedToThePredecessor(states, actions, i, w, s.servers[w].pc.session);
    assert PcOk(s, w);
    forall u | 0 <= u < |s.servers| ensures !IsWriting(s.servers[u].pc) {
      assert PcOk(s, u);
    }
  }
}
