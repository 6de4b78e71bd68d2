/** What a login, a kick and a clean-up bring about: whom a kick drains, and that every run can be
    continued until a new session has taken over and until a closed one is cleaned up. */
module PresenceProgress {
  import opened Basics
  import opened Presence

  // ---- What a kick does ------------------------------------------------------------------------------------

  /** Session y is listed on server v and open. */
  predicate IsUpOn(s: State, v: nat, y: nat) {
    v < |s.servers| && s.servers[v].online == Some(y) && y in s.sessions && s.sessions[y].life == Open
  }

  /** The sessions after a kick of `target`: that one drains, the others are as before. */
  ghost predicate Drained(s: State, s': State, target: Option<nat>) {
    && s'.sessions.Keys == s.sessions.Keys
    && forall y :: y in s.sessions ==>
         s'.sessions[y] == if target == Some(y) then s.sessions[y].(life := Draining) else s.sessions[y]
  }

  /** The kick of a login that holds the lock.  On the login's own server the listed session, if it is
      another one and open, drains at once and no other does; a delivered kick for another server that
      lists a session joins that server's queue and no other. */
  lemma LoginKicks(states: seq<State>, actions: seq<Action>, i: nat, v: nat, x: nat)
    requires IsRun(states, actions) && i < |actions| && v < |states[i].servers| && actions[i].LoginStep? && actions[i].server == v
    requires states[i].servers[v].pc == InLogin(x, Holding)
    ensures var s, s' := states[i], states[i + 1];
            && Drained(s, s', if s.uip == Some(v) && s.servers[v].online.Some? && s.servers[v].online != Some(x) && IsUpOn(s, v, s.servers[v].online.value)
                              then s.servers[v].online else None)
            && |s'.servers| == |s.servers|
            && forall u: nat :: u < |s.servers| ==>
                 s'.servers[u].queue == if actions[i].delivered && s.uip == Some(u) && u != v && s.servers[u].online.Some?
                                        then s.servers[u].queue + [KickTask(x)] else s.servers[u].queue
  {
    assert Step(states[i], actions[i], states[i + 1]);
  }

  /** A login drains or has told to drain exactly the session that logged in before it, unless that one's
      clean-up has begun. */
  lemma PredecessorIsKicked(states: seq<State>, actions: seq<Action>, i: nat, v: nat, x: nat, y: nat)
    requires IsRun(states, actions) && i < |actions| && v < |states[i].servers| && actions[i] == LoginStep(v, true)
    requires states[i].servers[v].pc == InLogin(x, Holding) && states[i].latest == Some(y) && y != x
    requires y in states[i].sessions && states[i].sessions[y].duty in {NoDuty, Owed, Queued}
    ensures var s, s', home := states[i], states[i + 1], states[i].sessions[y].home;
            && home < |s'.servers|
            && (home == v ==> Drained(s, s', if s.sessions[y].life == Open then Some(y) else None))
            && (home != v ==> Drained(s, s', None) && KickTask(x) in s'.servers[home].queue)
  {
    KickIsAddressedToThePredecessor(states, actions, i, v, x);
    LoginKicks(states, actions, i, v, x);
    var s', home := states[i + 1], states[i].sessions[y].home;
    if home != v {
      assert s'.servers[home].queue[|s'.servers[home].queue| - 1] == KickTask(x);
    }
  }

  /** A kick that comes to the head of a queue drains the session that its server lists then, if that one
      is open, and touches nothing else. */
  lemma QueuedKickDrains(states: seq<State>, actions: seq<Action>, i: nat, v: nat)
    requires IsRun(states, actions) && i < |actions| && v < |states[i].servers| && actions[i] == Dequeue(v)
    requires states[i].servers[v].queue != [] && states[i].servers[v].queue[0].KickTask?
    ensures var s, s' := states[i], states[i + 1];
            && s' == s.(servers := s.servers[v := s.servers[v].(queue := s.servers[v].queue[1..])], sessions := s'.sessions)
            && Drained(s, s', if s.servers[v].online.Some? && IsUpOn(s, v, s.servers[v].online.value) then s.servers[v].online else None)
  {
    assert Step(states[i], actions[i], states[i + 1]);
  }

  /** So does a session that its own side drains. */
  lemma DrainIsOfOne(states: seq<State>, actions: seq<Action>, i: nat, x: nat)
    requires IsRun(states, actions) && i < |actions| && actions[i] == Drain(x)
    ensures Drained(states[i], states[i + 1], Some(x)) && states[i + 1].servers == states[i].servers
  {
    assert Step(states[i], actions[i], states[i + 1]);
  }

  // ---- Continuations ---------------------------------------------------------------------------------------

  datatype Path = Here | Onward(before: Path, action: Action, state: State)

  function End(s: State, p: Path): State {
    match p
    case Here => s
    case Onward(_, _, t) => t
  }

  ghost predicate IsPath(s: State, p: Path) {
    match p
    case Here => true
    case Onward(before, action, t) => IsPath(s, before) && Step(End(s, before), action, t)
  }

  ghost predicate LeadsTo(s: State, t: State) {
    exists p :: IsPath(s, p) && End(s, p) == t
  }

  lemma Stay(s: State)
    ensures LeadsTo(s, s)
  {
    assert IsPath(s, Here) && End(s, Here) == s;
  }

  lemma Then(s: State, t: State, action: Action, t': State)
    requires LeadsTo(s, t) && Step(t, action, t')
    ensures LeadsTo(s, t')
  {
    var p :| IsPath(s, p) && End(s, p) == t;
    assert IsPath(s, Onward(p, action, t'));
  }

  ghost predicate Continues(states: seq<State>, actions: seq<Action>, states': seq<State>, actions': seq<Action>) {
    IsRun(states', actions') && states <= states' && actions <= actions'
  }

  lemma {:induction false} PathContinues(states: seq<State>, actions: seq<Action>, p: Path)
    returns (states': seq<State>, actions': seq<Action>)
    requires IsRun(states, actions) && IsPath(states[|states| - 1], p)
    ensures Continues(states, actions, states', actions') && states'[|states'| - 1] == End(states[|states| - 1], p)
  {
    match p
    case Here =>
      states', actions' := states, actions;
    case Onward(before, action, t) =>
      states', actions' := PathContinues(states, actions, before);
      states', actions' := states' + [t], actions' + [action];
  }

  // ---- A login ---------------------------------------------------------------------------------------------

  /** The worker of server v has nothing to do, and nobody holds the user's lock. */
  predicate IsFree(s: State, v: nat) {
    v < |s.servers| && s.servers[v].pc == Resting && s.servers[v].queue == [] && s.lock == None
  }

  /** A new session connects, asks to log in, and gets the lock. */
  lemma LockLeads(s: State, v: nat, x: nat) returns (t: State)
    requires IsFree(s, v) && x !in s.sessions
    ensures LeadsTo(s, t)
    ensures t == Go(Update(s, x, Session(v, Open, false, NoDuty)), v, InLogin(x, Holding)).(lock := Some(v))
  {
    var t1 := Update(s, x, Session(v, Open, false, NoDuty));
    var t2 := Enqueue(t1, v, LoginTask(x));
    var t3 := Go(t1, v, InLogin(x, Waiting));
    t := Go(t1, v, InLogin(x, Holding)).(lock := Some(v));
    Stay(s);
    Then(s, s, Connect(x, v), t1);
    Then(s, t1, PostLogin(x), t2);
    assert t2.servers[v].queue[1..] == [];
    assert Go(t2.(servers := t2.servers[v := t2.servers[v].(queue := [])]), v, InLogin(x, Waiting)) == t3;
    Then(s, t2, Dequeue(v), t3);
    assert Go(t3, v, InLogin(x, Holding)).(lock := Some(v)) == t;
    Then(s, t3, LoginStep(v, true), t);
  }

  /** Server u gets the kick of x. */
  function Posted(s: State, u: nat, x: nat): State
    requires u < |s.servers|
  {
    Enqueue(s, u, KickTask(x))
  }

  /** The state after the kick of a new session x on server v. */
  function AfterKick(s: State, v: nat, x: nat): State
    requires v < |s.servers|
  {
    if s.uip == Some(v) then KickAt(s, v, Some(x))
    else if s.uip.Some? && s.uip.value < |s.servers| && s.servers[s.uip.value].online.Some? then Posted(s, s.uip.value, x)
    else s
  }

  lemma KickLeads(s: State, t: State, v: nat, x: nat) returns (t': State)
    requires LeadsTo(s, t) && v < |t.servers| && t.servers[v].pc == InLogin(x, Holding) && x in t.sessions
    ensures LeadsTo(s, t') && t' == Go(AfterKick(t, v, x), v, InLogin(x, Kicked))
  {
    t' := Go(AfterKick(t, v, x), v, InLogin(x, Kicked));
    Then(s, t, LoginStep(v, true), t');
  }

  /** From the kick to the last entry. */
  lemma EntriesLead(s: State, t: State, v: nat, x: nat) returns (t': State)
    requires LeadsTo(s, t) && v < |t.servers| && t.servers[v].pc == InLogin(x, Kicked) && x in t.sessions
    requires t.sessions[x].life == Open && !t.sessions[x].bound
    ensures LeadsTo(s, t')
    ensures t' == t.(servers := t.servers[v := t.servers[v].(online := Some(x), pc := Resting)],
                     sessions := t.sessions[x := t.sessions[x].(bound := true)],
                     uip := Some(v), usession := Some(x), lock := None, latest := Some(x))
  {
    var t1 := Update(Go(t, v, InLogin(x, Bound)), x, t.sessions[x].(bound := true)).(latest := Some(x));
    var t2 := Go(t1, v, InLogin(x, IpSet)).(uip := Some(v));
    var t3 := Go(List(t2, v, Some(x)), v, InLogin(x, Listed));
    var t4 := Go(t3, v, InLogin(x, Named)).(usession := Some(x));
    Then(s, t, LoginStep(v, true), t1);
    Then(s, t1, LoginStep(v, true), t2);
    Then(s, t2, LoginStep(v, true), t3);
    Then(s, t3, LoginStep(v, true), t4);
    t' := Go(t4, v, Resting).(lock := None);
    Then(s, t4, LoginStep(v, true), t');
  }

  /** Session y as a login on server v leaves it: draining if it was listed there under the user's entry
      and open, else as it was. */
  function Outcome(s: State, v: nat, y: nat): Session
    requires y in s.sessions
  {
    if s.uip == Some(v) && IsUpOn(s, v, y) then s.sessions[y].(life := Draining) else s.sessions[y]
  }

  ghost predicate TookOver(s: State, t: State, v: nat, x: nat) {
    && IsRegistered(t, v, x) && t.lock == None && t.servers[v].pc == Resting && |t.servers| == |s.servers|
    && (forall y :: y in s.sessions ==> y in t.sessions && t.sessions[y] == Outcome(s, v, y))
    && (s.uip.Some? && s.uip.value < |s.servers| && s.uip.value != v && s.servers[s.uip.value].online.Some? ==>
          KickTask(x) in t.servers[s.uip.value].queue)
  }

  lemma LoginLeads(s: State, v: nat, x: nat) returns (t: State)
    requires IsFree(s, v) && x !in s.sessions
    ensures LeadsTo(s, t) && TookOver(s, t, v, x)
  {
    var t1 := LockLeads(s, v, x);
    var t2 := KickLeads(s, t1, v, x);
    if s.uip.Some? && s.uip.value < |s.servers| && s.uip.value != v && s.servers[s.uip.value].online.Some? {
      var q := t2.servers[s.uip.value].queue;
      assert q[|q| - 1] == KickTask(x);
    }
    t := EntriesLead(s, t2, v, x);
  }

  /** Session x is the latest, is bound and open, and all its entries are in place. */
  predicate IsRegistered(s: State, v: nat, x: nat) {
    && v < |s.servers| && x in s.sessions && s.sessions[x] == Session(v, Open, true, NoDuty)
    && s.latest == Some(x) && s.usession == Some(x) && s.uip == Some(v) && s.servers[v].online == Some(x)
  }

  /** Every run can be continued by a login on a free server: the new session ends up registered, the
      session that was listed there under the user's entry drains, a predecessor on another server has
      the kick in its queue, and no other session is touched. */
  lemma NewSessionTakesOver(states: seq<State>, actions: seq<Action>, v: nat, x: nat)
    returns (states': seq<State>, actions': seq<Action>)
    requires IsRun(states, actions) && IsFree(states[|states| - 1], v) && x !in states[|states| - 1].sessions
    ensures Continues(states, actions, states', actions')
    ensures TookOver(states[|states| - 1], states'[|states'| - 1], v, x)
  {
    var s := states[|states| - 1];
    var t := LoginLeads(s, v, x);
    var p :| IsPath(s, p) && End(s, p) == t;
    states', actions' := PathContinues(states, actions, p);
  }

  // ---- A clean-up --------------------------------------------------------------------------------------------

  /** The connection of x closes and its clean-up is taken from the queue. */
  lemma CloseLeads(s: State, v: nat, x: nat) returns (t: State)
    requires IsFree(s, v) && x in s.sessions && s.sessions[x].home == v && s.sessions[x].bound && s.sessions[x].life != Closing
    ensures LeadsTo(s, t)
    ensures t == Update(Go(s, v, InCleanup(x, Begun)), x, s.sessions[x].(life := Closing, duty := Underway))
  {
    var row := s.sessions[x].(life := Closing);
    var t1 := Update(s, x, row.(duty := Owed));
    var t2 := Update(Enqueue(t1, v, CleanupTask(x)), x, row.(duty := Queued));
    t := Update(Go(s, v, InCleanup(x, Begun)), x, row.(duty := Underway));
    Stay(s);
    Then(s, s, BeginClose(x), t1);
    Then(s, t1, PostCleanup(x), t2);
    assert t2.servers[v].queue == [CleanupTask(x)] && t2.servers[v].queue[1..] == [];
    var t3 := Update(Go(t2.(servers := t2.servers[v := t2.servers[v].(queue := [])]), v, InCleanup(x, Begun)), x, t2.sessions[x].(duty := Underway));
    assert t3.servers == t.servers && t3.sessions == t.sessions;
    Then(s, t2, Dequeue(v), t);
  }

  lemma RemovalLeads(s: State, t: State, v: nat, x: nat) returns (t': State)
    requires LeadsTo(s, t) && v < |t.servers| && t.servers[v].pc == InCleanup(x, Begun) && x in t.sessions && t.lock == None
    ensures LeadsTo(s, t') && t'.lock == None && |t'.servers| == |t.servers|
    ensures t'.servers[v].online == (if t.servers[v].online == Some(x) then None else t.servers[v].online) && t'.servers[v].pc == Resting
    ensures t'.usession == (if t.usession == Some(x) then None else t.usession) && t'.uip == (if t.usession == Some(x) then None else t.uip)
    ensures t'.sessions == t.sessions[x := t.sessions[x].(duty := Done)]
  {
    var t1 := Go(List(t, v, if t.servers[v].online == Some(x) then None else t.servers[v].online), v, InCleanup(x, Unlisted));
    Then(s, t, CleanupStep(v), t1);
    var t2 := Go(t1, v, InCleanup(x, Checking)).(lock := Some(v));
    Then(s, t1, CleanupStep(v), t2);
    var t3 := if t2.usession == Some(x) then Go(t2, v, InCleanup(x, Deleting)).(usession := None) else Go(t2, v, InCleanup(x, Finishing));
    Then(s, t2, CleanupStep(v), t3);
    var t4 := t3;
    if t2.usession == Some(x) {
      t4 := Go(t3, v, InCleanup(x, Finishing)).(uip := None);
      Then(s, t3, CleanupStep(v), t4);
    }
    t' := Update(Go(t4, v, Resting).(lock := None), x, t4.sessions[x].(duty := Done));
    Then(s, t4, CleanupStep(v), t');
  }

  /** Every run can be continued, once a bound session's server is free, until the session is closed and
      its clean-up is over: its own entries are gone, and those of a newer session stand. */
  lemma ClosedSessionIsCleanedUp(states: seq<State>, actions: seq<Action>, v: nat, x: nat)
    returns (states': seq<State>, actions': seq<Action>)
    requires IsRun(states, actions)
    requires var s := states[|states| - 1];
             IsFree(s, v) && x in s.sessions && s.sessions[x].home == v && s.sessions[x].bound && s.sessions[x].life != Closing
    ensures Continues(states, actions, states', actions')
    ensures var s, t := states[|states| - 1], states'[|states'| - 1];
            && x in t.sessions && t.sessions[x].duty == Done && t.sessions[x].life == Closing && t.lock == None
            && v < |t.servers| && t.servers[v].online == (if s.servers[v].online == Some(x) then None else s.servers[v].online)
            && t.usession == (if s.usession == Some(x) then None else s.usession)
            && t.uip == (if s.usession == Some(x) then None else s.uip)
  {
    var s := states[|states| - 1];
    var t1 := CloseLeads(s, v, x);
    var t := RemovalLeads(s, t1, v, x);
    var p :| IsPath(s, p) && End(s, p) == t;
    states', actions' := PathContinues(states, actions, p);
  }
}
