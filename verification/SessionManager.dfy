/** `SessionManager` and `SimpleSemaphore` as mutable objects, each operation proved
    equal to the table operation of `SessionStore`. */
module SessionManager {
  import opened Strings
  import Spec = SessionStore

  /** A buffered channel of capacity `capacity` used as a semaphore. */
  class SimpleSemaphore {
    const capacity: nat
    var ch: nat

    ghost predicate Valid()
      reads this
    {
      ch <= capacity
    }

    constructor (capacity: nat)
      ensures Valid() && this.capacity == capacity && ch == 0
    {
      this.capacity := capacity;
      ch := 0;
    }

    /** Returns once there is room or the context is done; with both ready Go picks
        either branch, and `preferDone` is that pick. */
    method Acquire(ctxDone: bool, preferDone: bool) returns (ok: bool)
      requires Valid() && (ch < capacity || ctxDone)
      modifies this
      ensures Valid()
      ensures ok <==> old(ch) < capacity && !(ctxDone && preferDone)
      ensures ch == if ok then old(ch) + 1 else old(ch)
    {
      if ch < capacity && !(ctxDone && preferDone) {
        ch := ch + 1;
        return true;
      }
      return false;
    }

    method Release()
      requires Valid()
      modifies this
      ensures Valid()
      ensures ch == if old(ch) > 0 then old(ch) - 1 else 0
    {
      if ch > 0 { ch := ch - 1; }
    }

    method TryAcquire() returns (ok: bool)
      requires Valid()
      modifies this
      ensures Valid() && (ok <==> old(ch) < capacity)
      ensures ch == if ok then old(ch) + 1 else old(ch)
    {
      if ch < capacity {
        ch := ch + 1;
        return true;
      }
      return false;
    }
  }

  /** The session manager. A session pointer is the object's allocation number, its
      index in `created`; `closed` lists the objects whose `Done` has been closed. */
  class SessionManager {
    const maxPerUser: int
    var created: seq<Spec.Session>
    var sessions: map<string, nat>
    var userSessions: map<string, seq<string>>
    var timers: map<string, Spec.Timer>
    var closed: seq<nat>
    ghost var callbacks: seq<(string, nat)>
    var shutdown: bool

    ghost function Table(): Spec.Store
      reads this
    {
      Spec.Store(maxPerUser, created, sessions, userSessions, timers, closed, callbacks, shutdown)
    }

    ghost predicate Valid()
      reads this
    {
      Spec.Safe(Table())
    }

    constructor (maxPerUser: int)
      ensures Valid() && Table() == Spec.Empty(maxPerUser)
    {
      this.maxPerUser := maxPerUser;
      created, sessions, userSessions, timers, closed, callbacks, shutdown := [], map[], map[], map[], [], [], false;
    }

    method CreateSession(key: string, user: string) returns (ok: bool)
      requires Valid()
      modifies this
      ensures Valid() && Table() == Spec.DoCreate(old(Table()), key, user)
      ensures ok <==> !Spec.Rejected(old(Table()), user)
    {
      Spec.CreateKeeps(Table(), key, user);
      if user in userSessions {
        if |userSessions[user]| >= maxPerUser { return false; }
      }
      var session := |created|;
      created := created + [Spec.Session(key, user)];
      sessions := sessions[key := session];
      if user !in userSessions { userSessions := userSessions[user := []]; }
      userSessions := userSessions[user := userSessions[user] + [key]];
      return true;
    }

    method GetSession(key: string) returns (session: Option<nat>)
      requires Valid()
      ensures session.Some? <==> key in sessions
      ensures session.Some? ==> session.value == sessions[key]
      ensures session.Some? ==>
                session.value < |created| && created[session.value].key == key && session.value !in closed
    {
      if key !in sessions { return None; }
      return Some(sessions[key]);
    }

    method ValidateSession(key: string, user: string) returns (ok: bool)
      requires Valid()
      ensures ok <==> key in Spec.LiveOf(Table(), user)
    {
      if key !in sessions { return false; }
      return created[sessions[key]].user == user;
    }

    /** `close(session.Done)`; closing it twice would panic. */
    method CloseDone(session: nat)
      requires session !in closed
      modifies this`closed
      ensures closed == old(closed) + [session]
    {
      closed := closed + [session];
    }

    /** The loop in `cleanupSessionLocked` that drops a key from the owner's list. */
    method WithoutKey(list: seq<string>, key: string) returns (kept: seq<string>)
      ensures kept == Spec.Without(list, key)
    {
      kept := [];
      for i := 0 to |list|
        invariant kept == Spec.Without(list[..i], key)
      {
        WithoutSnoc(list[..i], list[i], key);
        assert list[..i + 1] == list[..i] + [list[i]];
        if list[i] != key { kept := kept + [list[i]]; }
      }
      assert list[..|list|] == list;
    }

    method CleanupSessionLocked(key: string, session: nat)
      requires Valid() && key in sessions && sessions[key] == session
      modifies this
      ensures Valid() && Table() == Spec.DoEnd(old(Table()), key)
    {
      Spec.EndKeeps(Table(), key);
      if key in timers { timers := timers - {key}; }
      assert timers == old(timers) - {key};
      CloseDone(session);
      var user := created[session].user;
      if user in userSessions {
        var kept := WithoutKey(userSessions[user], key);
        if |kept| > 0 {
          userSessions := userSessions[user := kept];
        } else {
          userSessions := userSessions - {user};
        }
      }
      sessions := sessions - {key};
    }

    /** `EndSession`; `ExpireSession` does the same and drops the error. */
    method EndSession(key: string) returns (ok: bool)
      requires Valid()
      modifies this
      ensures Valid() && Table() == Spec.DoEnd(old(Table()), key)
      ensures ok <==> key in old(sessions)
    {
      if key !in sessions { return false; }
      CleanupSessionLocked(key, sessions[key]);
      return true;
    }

    method ResetSessionTimer(key: string)
      requires Valid()
      modifies this
      ensures Valid() && Table() == Spec.DoResetTimer(old(Table()), key)
    {
      if key in sessions {
        if key in timers { timers := timers - {key}; }
        assert timers == old(timers) - {key};
      }
    }

    method StartSessionTimer(key: string)
      requires Valid()
      modifies this
      ensures Valid() && Table() == Spec.DoStartTimer(old(Table()), key)
    {
      if key in sessions {
        timers := timers[key := Spec.Timer(sessions[key], false)];
      }
    }

    /** Cleans the sessions up in whatever order the map yields them, which is `order`. */
    method CleanupEverySession() returns (ghost order: seq<string>)
      requires Valid()
      modifies this
      ensures Valid() && Spec.Lists(order, old(sessions).Keys) && sessions == map[]
      ensures Table() == Spec.CleanupAll(old(Table()), order)
    {
      order := [];
      ghost var all := sessions.Keys;
      ghost var was := Table();
      while sessions != map[]
        invariant Valid() && Table() == Spec.CleanupAll(was, order)
        invariant Spec.Lists(order, all - sessions.Keys) && sessions.Keys <= all
        decreases sessions.Keys
      {
        var key :| key in sessions;
        ghost var left := sessions.Keys;
        CleanupOne(key, was, order);
        ListsSnoc(order, all, left, key);
        order := order + [key];
      }
      assert all - sessions.Keys == all;
    }

    /** One pass of that loop. */
    method CleanupOne(key: string, ghost was: Spec.Store, ghost order: seq<string>)
      requires Valid() && key in sessions && Table() == Spec.CleanupAll(was, order)
      modifies this
      ensures Valid() && Table() == Spec.CleanupAll(was, order + [key])
      ensures sessions.Keys == old(sessions.Keys) - {key}
    {
      Spec.EndKeeps(Table(), key);
      CleanupAllSnoc(was, order, key);
      CleanupSessionLocked(key, sessions[key]);
    }

    method Shutdown() returns (ghost order: seq<string>)
      requires Valid() && !shutdown
      modifies this
      ensures Valid() && Spec.Lists(order, old(sessions).Keys) && sessions == map[]
      ensures Table() == Spec.DoShutdown(old(Table()), order)
    {
      shutdown := true;
      timers := map[];
      order := CleanupEverySession();
    }

    /** The scan for the last dot in `GetSessionByState`. */
    method LastDot(state: string) returns (lastDot: int)
      ensures lastDot == LastIndexOf(state, '.')
    {
      var i := |state| - 1;
      while i >= 0
        invariant -1 <= i < |state|
        invariant LastIndexOf(state, '.') == LastIndexOf(state[..i + 1], '.')
      {
        if state[i] == '.' { return i; }
        assert state[..i + 1][..i] == state[..i];
        i := i - 1;
      }
      return -1;
    }

    method GetSessionCount() returns (n: nat)
      requires Valid()
      ensures n == |sessions|
      ensures Spec.Exact(Table()) ==> n == Spec.TotalSlots(userSessions)
    {
      if Spec.Exact(Table()) { Spec.ListLengthsAddUp(Table()); }
      return |sessions|;
    }

    method GetUserSessionCount(user: string) returns (n: nat)
      ensures n == |Spec.Slots(Table(), user)|
    {
      if user in userSessions { return |userSessions[user]|; }
      return 0;
    }
  }

  lemma ListsSnoc(order: seq<string>, all: set<string>, left: set<string>, key: string)
    requires Spec.Lists(order, all - left) && key in left && left <= all
    ensures Spec.Lists(order + [key], all - (left - {key}))
  {
  }

  lemma {:induction false} WithoutSnoc(list: seq<string>, last: string, key: string)
    ensures Spec.Without(list + [last], key) == Spec.Without(list, key) + if last != key then [last] else []
    decreases |list|
  {
    if list == [] {
      assert [last][1..] == [];
    } else {
      assert (list + [last])[1..] == list[1..] + [last];
      WithoutSnoc(list[1..], last, key);
    }
  }

  lemma {:induction false} CleanupAllSnoc(st: Spec.Store, order: seq<string>, key: string)
    ensures Spec.CleanupAll(st, order + [key]) == Spec.DoEnd(Spec.CleanupAll(st, order), key)
    decreases |order|
  {
    if order == [] {
      assert [key][1..] == [];
      assert Spec.CleanupAll(st, [key]) == Spec.CleanupAll(Spec.DoEnd(st, key), []);
    } else {
      assert (order + [key])[1..] == order[1..] + [key];
      CleanupAllSnoc(Spec.DoEnd(st, order[0]), order[1..], key);
    }
  }
}
