/** The small shared objects that sessions and logins are built on: the session state machine, the
    user table of one server and the Redis lock. */
module Lifecycle {
  import opened Basics

  datatype Phase = Open | Draining | Closing | Closed

  predicate MayFollow(p: Phase, q: Phase) {
    match p
    case Open => q in {Draining, Closing}
    case Draining => q == Closing
    case Closing => q == Closed
    case Closed => false
  }

  /** server/common/include/SessionLifecycle.h. */
  class SessionLifecycle {
    var phase: Phase

    constructor ()
      ensures phase == Open
    {
      phase := Open;
    }

    method BeginDrain() returns (won: bool)
      modifies this
      ensures won == (old(phase) == Open)
      ensures phase == if won then Draining else old(phase)
      ensures won ==> MayFollow(old(phase), phase)
    {
      won := phase == Open;
      if won {
        phase := Draining;
      }
    }

    /** compare_exchange_weak may fail for no reason; `spurious` says how often it does. */
    method BeginClose(spurious: nat) returns (won: bool)
      modifies this
      ensures won == (old(phase) in {Open, Draining})
      ensures phase == if won then Closing else old(phase)
      ensures won ==> MayFollow(old(phase), phase)
    {
      var current, failures := phase, spurious;
      while current == Open || current == Draining
        invariant current == phase == old(phase)
        decreases failures
      {
        if failures == 0 {
          phase := Closing;
          return true;
        }
        failures := failures - 1;
      }
      return false;
    }

    method CompleteClose() returns (won: bool)
      modifies this
      ensures won == (old(phase) == Closing)
      ensures phase == if won then Closed else old(phase)
      ensures won ==> MayFollow(old(phase), phase)
    {
      won := phase == Closing;
      if won {
        phase := Closed;
      }
    }
  }

  /** server/ChatServer/src/UserMgr.cpp; sessions are compared by identity. */
  class UserTable {
    var sessions: map<int, nat>

    constructor ()
      ensures sessions == map[]
    {
      sessions := map[];
    }

    method GetSession(uid: int) returns (session: Option<nat>)
      ensures session == if uid in sessions then Some(sessions[uid]) else None
    {
      return if uid in sessions then Some(sessions[uid]) else None;
    }

    method SetUserSession(uid: int, session: nat)
      modifies this
      ensures sessions == old(sessions)[uid := session]
    {
      sessions := sessions[uid := session];
    }

    /** A delayed clean-up leaves the entry of a newer session alone. */
    method RmvUserSession(uid: int, session: nat)
      modifies this
      ensures !(uid in sessions && sessions[uid] == session)
      ensures forall u :: u in old(sessions) && !(u == uid && old(sessions)[u] == session) ==> u in sessions && sessions[u] == old(sessions)[u]
      ensures forall u :: u in sessions ==> u in old(sessions)
    {
      if uid !in sessions || sessions[uid] != session {
        return;
      }
      sessions := sessions - {uid};
    }
  }

  /** What other clients do with the key: SET NX under their identifier, or a release. */
  datatype ClientEvent = TrySet(id: string) | TryRelease(id: string)

  /** Who holds the key after them: the first to set a free key, until it releases it. */
  function HolderAfter(holder: Option<string>, events: seq<ClientEvent>): Option<string> {
    if events == [] then holder
    else
      var before, last := HolderAfter(holder, events[..|events| - 1]), events[|events| - 1];
      if last.TrySet? then (if before == None then Some(last.id) else before)
      else if before == Some(last.id) then None else before
  }

  /** One SET NX attempt: what happens to the key before it, and whether Redis answers. */
  datatype Attempt = Attempt(before: seq<ClientEvent>, answered: bool)

  /** server/common/src/DistLock.cpp: one lock key.  `owners` are the identifiers whose acquisition
      succeeded and whose release has not; an attempt without an answer has no effect. */
  class DistLock {
    var holder: Option<string>
    ghost var owners: set<string>

    constructor ()
      ensures Valid() && holder == None
    {
      holder := None;
      owners := {};
    }

    /** At most one client owns the lock: the one whose identifier is stored. */
    ghost predicate Valid()
      reads this
    {
      owners == if holder.Some? then {holder.value} else {}
    }

    method SetIfAbsent(identifier: string) returns (ok: bool)
      requires Valid()
      modifies this
      ensures Valid()
      ensures ok == (old(holder) == None)
      ensures holder == if ok then Some(identifier) else old(holder)
    {
      ok := holder == None;
      if ok {
        holder := Some(identifier);
        owners := owners + {identifier};
      }
    }

    /** The Lua script deletes the key only for the identifier that it holds. */
    method ReleaseLock(identifier: string) returns (released: bool)
      requires Valid()
      modifies this
      ensures Valid()
      ensures released == (old(holder) == Some(identifier))
      ensures holder == if released then None else old(holder)
    {
      released := holder == Some(identifier);
      if released {
        holder := None;
        owners := owners - {identifier};
      }
    }

    /** Other clients use the key; none of them has this identifier. */
    method OthersAct(events: seq<ClientEvent>, identifier: string)
      requires Valid() && holder != Some(identifier)
      requires forall e :: e in events ==> e.id != identifier
      modifies this
      ensures Valid() && holder != Some(identifier) && holder == HolderAfter(old(holder), events)
    {
      for k := 0 to |events|
        invariant Valid() && holder != Some(identifier) && holder == HolderAfter(old(holder), events[..k])
      {
        assert events[k] in events && events[..k + 1][..k] == events[..k];
        if events[k].TrySet? {
          var ok := SetIfAbsent(events[k].id);
        } else {
          var ok := ReleaseLock(events[k].id);
        }
      }
      assert events[..|events|] == events;
    }

    /** Tries until the time-out.  `met` is what the attempts found in the key.  It succeeds exactly
        when an answered attempt finds the key free, and then this client is the only owner. */
    method AcquireLock(identifier: string, attempts: seq<Attempt>) returns (result: string, ghost met: seq<Option<string>>)
      requires Valid() && identifier != "" && holder != Some(identifier)
      requires forall a, e :: a in attempts && e in a.before ==> e.id != identifier
      modifies this
      ensures Valid()
      ensures result == identifier ==> owners == {identifier}
      ensures result == identifier <==> 0 < |met| <= |attempts| && attempts[|met| - 1].answered && met[|met| - 1] == None
      ensures result != identifier ==> result == "" && identifier !in owners && |met| == |attempts|
      ensures result != identifier ==> forall k :: 0 <= k < |met| && attempts[k].answered ==> met[k].Some?
    {
      met := [];
      var k := 0;
      while k < |attempts|
        invariant 0 <= k <= |attempts| && Valid() && holder != Some(identifier) && |met| == k
        invariant forall i :: 0 <= i < k && attempts[i].answered ==> met[i].Some?
      {
        assert attempts[k] in attempts;
        OthersAct(attempts[k].before, identifier);
        met := met + [holder];
        if attempts[k].answered {
          var ok := SetIfAbsent(identifier);
          if ok {
            return identifier, met;
          }
        }
        k := k + 1;
      }
      return "", met;
    }
  }
}
