/** A run of Presence in which a kick that waited in a queue drains the newest session: session 0 is
    online on server 0 and session 2 is logging in there; session 1 logs in on server 1 and its kick
    is queued behind the login of session 2. */
module PresenceExample {
  import opened Basics
  import opened Presence

  /** A run as a list that grows at its end. */
  datatype Trace = First(start: State) | Then(before: Trace, action: Action, state: State)

  function Last(t: Trace): State {
    match t
    case First(s) => s
    case Then(_, _, s) => s
  }

  ghost predicate IsTrace(t: Trace) {
    match t
    case First(s) => Init(s)
    case Then(before, action, s) => IsTrace(before) && Step(Last(before), action, s)
  }

  ghost predicate Reachable(s: State) {
    exists t :: IsTrace(t) && Last(t) == s
  }

  /** Such a list is a run. */
  lemma {:induction false} TraceIsRun(t: Trace) returns (states: seq<State>, actions: seq<Action>)
    requires IsTrace(t)
    ensures IsRun(states, actions) && states[|states| - 1] == Last(t)
  {
    match t
    case First(s) =>
      states, actions := [s], [];
    case Then(before, action, s) =>
      states, actions := TraceIsRun(before);
      states, actions := states + [s], actions + [action];
  }

  lemma Reach(s: State, action: Action, s': State)
    requires Reachable(s) && Step(s, action, s')
    ensures Reachable(s')
  {
    var t :| IsTrace(t) && Last(t) == s;
    assert IsTrace(Then(t, action, s'));
  }

  // ---- One login ---------------------------------------------------------------------------------------------

  /** A new session x connects to server v and its login becomes the worker's task. */
  function Asked(s: State, v: nat, x: nat): State
    requires v < |s.servers|
  {
    Go(Update(s, x, Session(v, Open, false, NoDuty)), v, InLogin(x, Waiting))
  }

  lemma LoginIsTaken(s: State, v: nat, x: nat)
    requires Reachable(s) && v < |s.servers| && x !in s.sessions && s.servers[v].pc == Resting && s.servers[v].queue == []
    ensures Reachable(Asked(s, v, x))
  {
    var s1 := Update(s, x, Session(v, Open, false, NoDuty));
    var s2 := Enqueue(s1, v, LoginTask(x));
    Reach(s, Connect(x, v), s1);
    Reach(s1, PostLogin(x), s2);
    assert s2.servers[v].queue[1..] == [];
    assert Go(s2.(servers := s2.servers[v := s2.servers[v].(queue := [])]), v, InLogin(x, Waiting)) == Asked(s, v, x);
    Reach(s2, Dequeue(v), Asked(s, v, x));
  }

  /** The login of x on server v holds the lock and has done its kick. */
  ghost predicate IsKicked(s: State, v: nat, x: nat) {
    && v < |s.servers| && s.servers[v].pc == InLogin(x, Kicked) && s.lock == Some(v)
    && x in s.sessions && s.sessions[x].life == Open && !s.sessions[x].bound
  }

  function LoggedIn(s: State, v: nat, x: nat): State
    requires v < |s.servers| && x in s.sessions
  {
    s.(servers := s.servers[v := s.servers[v].(online := Some(x), pc := Resting)], sessions := s.sessions[x := s.sessions[x].(bound := true)],
       uip := Some(v), usession := Some(x), lock := None, latest := Some(x))
  }

  lemma LoginFinishes(s: State, v: nat, x: nat)
    requires Reachable(s) && IsKicked(s, v, x)
    ensures Reachable(LoggedIn(s, v, x))
  {
    var s1 := Update(Go(s, v, InLogin(x, Bound)), x, s.sessions[x].(bound := true)).(latest := Some(x));
    var s2 := Go(s1, v, InLogin(x, IpSet)).(uip := Some(v));
    var s3 := Go(List(s2, v, Some(x)), v, InLogin(x, Listed));
    var s4 := Go(s3, v, InLogin(x, Named)).(usession := Some(x));
    Reach(s, LoginStep(v, true), s1);
    Reach(s1, LoginStep(v, true), s2);
    Reach(s2, LoginStep(v, true), s3);
    Reach(s3, LoginStep(v, true), s4);
    assert Go(s4, v, Resting).(lock := None) == LoggedIn(s, v, x);
    Reach(s4, LoginStep(v, true), LoggedIn(s, v, x));
  }

  /** From the wait for the lock to the point after a kick that goes nowhere. */
  lemma LoginKicksNobody(s: State, v: nat, x: nat)
    requires Reachable(s) && v < |s.servers| && s.servers[v].pc == InLogin(x, Waiting) && x in s.sessions && s.lock == None && s.uip != Some(v)
    ensures Reachable(Go(s, v, InLogin(x, Kicked)).(lock := Some(v)))
  {
    var s1 := Go(s, v, InLogin(x, Holding)).(lock := Some(v));
    Reach(s, LoginStep(v, false), s1);
    assert Go(s1, v, InLogin(x, Kicked)) == Go(s, v, InLogin(x, Kicked)).(lock := Some(v));
    Reach(s1, LoginStep(v, false), Go(s1, v, InLogin(x, Kicked)));
  }

  // ---- The run -----------------------------------------------------------------------------------------------

  const EMPTY := Server(None, [], Resting)

  function Begin(): State {
    State([EMPTY, EMPTY], map[], None, None, None, None)
  }

  const ONLINE := Session(0, Open, true, NoDuty)

  /** Session 0 is online on server 0, and session 2 waits there for the lock. */
  function SecondWaits(): State {
    State([Server(Some(0), [], InLogin(2, Waiting)), EMPTY], map[0 := ONLINE, 2 := Session(0, Open, false, NoDuty)],
          Some(0), Some(0), None, Some(0))
  }

  lemma SecondIsWaiting()
    ensures Reachable(SecondWaits())
  {
    assert IsTrace(First(Begin()));
    assert Reachable(Begin());
    LoginIsTaken(Begin(), 0, 0);
    var a := Asked(Begin(), 0, 0);
    LoginKicksNobody(a, 0, 0);
    var b := Go(a, 0, InLogin(0, Kicked)).(lock := Some(0));
    LoginFinishes(b, 0, 0);
    var c := LoggedIn(b, 0, 0);
    LoginIsTaken(c, 0, 2);
    assert Asked(c, 0, 2) == SecondWaits() by {
      assert Asked(c, 0, 2).servers == SecondWaits().servers;
      assert Asked(c, 0, 2).sessions == SecondWaits().sessions;
    }
  }

  /** Session 1 has logged in on server 1; its kick waits on server 0. */
  function KickWaits(): State {
    State([Server(Some(0), [KickTask(1)], InLogin(2, Waiting)), Server(Some(1), [], Resting)],
          map[0 := ONLINE, 1 := Session(1, Open, true, NoDuty), 2 := Session(0, Open, false, NoDuty)],
          Some(1), Some(1), None, Some(1))
  }

  lemma KickIsWaiting()
    ensures Reachable(KickWaits())
  {
    SecondIsWaiting();
    var s := SecondWaits();
    LoginIsTaken(s, 1, 1);
    var a := Asked(s, 1, 1);
    var b := Go(a, 1, InLogin(1, Holding)).(lock := Some(1));
    Reach(a, LoginStep(1, true), b);
    KickIsPosted(b);
  }

  lemma KickIsPosted(s: State)
    requires Reachable(s) && s == Go(Asked(SecondWaits(), 1, 1), 1, InLogin(1, Holding)).(lock := Some(1))
    ensures Reachable(KickWaits())
  {
    var a := Go(Enqueue(s, 0, KickTask(1)), 1, InLogin(1, Kicked));
    Reach(s, LoginStep(1, true), a);
    LoginFinishes(a, 1, 1);
    assert LoggedIn(a, 1, 1) == KickWaits() by {
      assert [] + [KickTask(1)] == [KickTask(1)];
      assert LoggedIn(a, 1, 1).servers == KickWaits().servers;
      assert LoggedIn(a, 1, 1).sessions == KickWaits().sessions;
    }
  }

  /** Session 2 has logged in on server 0 after all, and the kick is next. */
  function NewestOnline(): State {
    State([Server(Some(2), [KickTask(1)], Resting), Server(Some(1), [], Resting)],
          map[0 := ONLINE, 1 := Session(1, Open, true, NoDuty), 2 := ONLINE],
          Some(0), Some(2), None, Some(2))
  }

  lemma NewestIsOnline()
    ensures Reachable(NewestOnline())
  {
    KickIsWaiting();
    var s := KickWaits();
    LoginKicksNobody(s, 0, 2);
    var a := Go(s, 0, InLogin(2, Kicked)).(lock := Some(0));
    LoginFinishes(a, 0, 2);
    assert LoggedIn(a, 0, 2) == NewestOnline() by {
      assert LoggedIn(a, 0, 2).servers == NewestOnline().servers;
      assert LoggedIn(a, 0, 2).sessions == NewestOnline().sessions;
    }
  }

  /** The kick of session 1, meant for its predecessor 0, drains session 2, which logged in after both. */
  lemma LateKickDrainsTheNewest() returns (states: seq<State>, actions: seq<Action>)
    ensures IsRun(states, actions) && |actions| > 0 && actions[|actions| - 1] == Dequeue(0)
    ensures var s, s' := states[|states| - 2], states[|states| - 1];
            && |s.servers| > 0 && s.servers[0].queue == [KickTask(1)] && s.latest == Some(2)
            && 2 in s.sessions && s.sessions[2].life == Open && 2 in s'.sessions && s'.sessions[2].life == Draining
            && 0 in s'.sessions && s'.sessions[0].life == Open
  {
    NewestIsOnline();
    var s := NewestOnline();
    var t :| IsTrace(t) && Last(t) == s;
    var before, done := TraceIsRun(t);
    var s1 := s.(servers := s.servers[0 := s.servers[0].(queue := s.servers[0].queue[1..])]);
    var s' := KickAt(s1, 0, None);
    assert Step(s, Dequeue(0), s');
    assert s'.sessions[2].life == Draining && s'.sessions[0].life == Open;
    states, actions := before + [s'], done + [Dequeue(0)];
  }
}
