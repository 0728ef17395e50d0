/** The connection pool: a Mutex-guarded vector of free connections and a
    Condvar, as a state machine over every interleaving of its threads. */
module Pool {
  import opened Results

  type Conn = nat
  type Thread = nat

  /** Where a thread stands in `conn` or in the drop of a lease. */
  datatype At =
    | Outside                 // in neither
    | Calling                 // in conn, about to take the lock
    | Looking(again: bool)    // in conn's loop, holding the lock, for the first time or again after a wakeup
    | Waiting                 // in the condition variable's wait set
    | Woken                   // awake again, about to retake the lock
    | Returning(conn: Conn)   // dropping a lease, about to take the lock
    | Pushing(conn: Conn)     // dropping a lease, holding the lock
    | Notifying               // pushed and unlocked, about to notify one

  datatype State = State(
    free: seq<Conn>,
    lock: Option<Thread>,
    threads: map<Thread, At>,
    leased: map<Conn, Thread>)

  datatype Event =
    | Call(t: Thread)
    | Lock(t: Thread)
    | Pop(t: Thread)
    | Wait(t: Thread)
    | Wake(t: Thread)         // a spurious wakeup
    | Relock(t: Thread)
    | Drop(t: Thread, conn: Conn)
    | LockToReturn(t: Thread)
    | Push(t: Thread)
    | Notify(t: Thread, woken: Option<Thread>)

  predicate Is(s: State, t: Thread, at: At) {
    t in s.threads && s.threads[t] == at
  }

  predicate Enabled(s: State, e: Event) {
    match e
    case Call(t) => Is(s, t, Outside)
    case Lock(t) => Is(s, t, Calling) && s.lock.None?
    case Pop(t) => t in s.threads && s.threads[t].Looking? && s.free != []
    case Wait(t) => t in s.threads && s.threads[t].Looking? && s.free == []
    case Wake(t) => Is(s, t, Waiting)
    case Relock(t) => Is(s, t, Woken) && s.lock.None?
    case Drop(t, c) => Is(s, t, Outside) && c in s.leased && s.leased[c] == t
    case LockToReturn(t) => t in s.threads && s.threads[t].Returning? && s.lock.None?
    case Push(t) => t in s.threads && s.threads[t].Pushing?
    case Notify(t, woken) =>
      // wakes a waiter if there is one
      && Is(s, t, Notifying)
      && (match woken
          case Some(w) => Is(s, w, Waiting)
          case None => forall w :: w in s.threads ==> !s.threads[w].Waiting?)
  }

  function Moved(s: State, t: Thread, at: At): State {
    s.(threads := s.threads[t := at])
  }

  function After(s: State, e: Event): State
    requires Enabled(s, e)
  {
    match e
    case Call(t) => Moved(s, t, Calling)
    case Lock(t) => Moved(s, t, Looking(false)).(lock := Some(t))
    case Pop(t) =>
      var c := s.free[|s.free| - 1];
      Moved(s, t, Outside).(free := s.free[..|s.free| - 1], lock := None, leased := s.leased[c := t])
    case Wait(t) => Moved(s, t, Waiting).(lock := None)
    case Wake(t) => Moved(s, t, Woken)
    case Relock(t) => Moved(s, t, Looking(true)).(lock := Some(t))
    case Drop(t, c) => Moved(s, t, Returning(c)).(leased := s.leased - {c})
    case LockToReturn(t) => Moved(s, t, Pushing(s.threads[t].conn)).(lock := Some(t))
    case Push(t) => Moved(s, t, Notifying).(free := s.free + [s.threads[t].conn], lock := None)
    case Notify(t, woken) =>
      match woken
      case Some(w) => Moved(Moved(s, t, Outside), w, Woken)
      case None => Moved(s, t, Outside)
  }

  /** The pool as it is made: every connection free, no thread in it. */
  predicate Initial(s: State, all: set<Conn>) {
    && s.lock.None? && s.leased == map[]
    && (forall t :: t in s.threads ==> s.threads[t].Outside?)
    && (forall i, j :: 0 <= i < j < |s.free| ==> s.free[i] != s.free[j])
    && (set c | c in s.free) == all
  }

  /** The state after a run; `None` when some event was not enabled. */
  function Run(s: State, events: seq<Event>): Option<State>
    decreases |events|
  {
    if events == [] then Some(s)
    else if !Enabled(s, events[0]) then None
    else Run(After(s, events[0]), events[1..])
  }

  // ----- the invariant -----

  /** The lock is held by exactly the thread that is between taking and releasing it. */
  ghost predicate LockIsExclusive(s: State) {
    && (forall t :: t in s.threads && (s.threads[t].Looking? || s.threads[t].Pushing?) ==> s.lock == Some(t))
    && (s.lock.Some? ==>
          s.lock.value in s.threads && (s.threads[s.lock.value].Looking? || s.threads[s.lock.value].Pushing?))
  }

  /** The connection a thread is giving back. */
  predicate GivesBack(s: State, t: Thread, c: Conn) {
    t in s.threads && (s.threads[t] == Returning(c) || s.threads[t] == Pushing(c))
  }

  /** Every connection is in exactly one place: free, leased, or being given back. */
  ghost predicate EachInOnePlace(s: State, all: set<Conn>) {
    && (forall i, j :: 0 <= i < j < |s.free| ==> s.free[i] != s.free[j])
    && (forall c :: c in s.free ==> c in all && c !in s.leased)
    && (forall c :: c in s.leased ==> c in all)
    && (forall t, c :: GivesBack(s, t, c) ==> c in all && c !in s.free && c !in s.leased)
    && (forall t, u, c :: GivesBack(s, t, c) && GivesBack(s, u, c) ==> t == u)
    && (forall c :: c in all ==> c in s.free || c in s.leased || exists t :: GivesBack(s, t, c))
  }

  /** The threads with a notification on its way, and those already woken, until
      they find a connection or wait again. */
  function Helpers(s: State): set<Thread> {
    set t | t in s.threads && Helps(s.threads[t])
  }

  predicate Helps(at: At) {
    at.Notifying? || at.Woken? || (at.Looking? && at.again)
  }

  ghost predicate SomeoneWaits(s: State) {
    exists t :: Is(s, t, Waiting)
  }

  /** No wakeup is lost: while a thread waits, every free connection is matched
      by a notification on its way or a thread already woken. A thread that
      only just called and was never woken does not count. */
  ghost predicate NoWakeupLost(s: State) {
    SomeoneWaits(s) ==> |s.free| <= |Helpers(s)|
  }

  ghost predicate Inv(s: State, all: set<Conn>) {
    LockIsExclusive(s) && EachInOnePlace(s, all) && NoWakeupLost(s)
  }

  lemma LockStaysExclusive(s: State, e: Event)
    requires LockIsExclusive(s) && Enabled(s, e)
    ensures LockIsExclusive(After(s, e))
  {
  }

  // ----- conservation -----

  lemma ConservedByPop(s: State, t: Thread, all: set<Conn>)
    requires LockIsExclusive(s) && EachInOnePlace(s, all) && Enabled(s, Pop(t))
    ensures EachInOnePlace(After(s, Pop(t)), all)
  {
    var r, c := After(s, Pop(t)), s.free[|s.free| - 1];
    assert s.free == r.free + [c];
    assert forall u, d :: GivesBack(r, u, d) <==> GivesBack(s, u, d);
    assert forall d :: d in s.free <==> d in r.free || d == c;
    assert c !in r.free;
  }

  lemma ConservedByDrop(s: State, t: Thread, c: Conn, all: set<Conn>)
    requires EachInOnePlace(s, all) && Enabled(s, Drop(t, c))
    ensures EachInOnePlace(After(s, Drop(t, c)), all)
  {
    var r := After(s, Drop(t, c));
    assert GivesBack(r, t, c);
    assert forall u, d :: GivesBack(r, u, d) <==> GivesBack(s, u, d) || (u == t && d == c);
  }

  lemma ConservedByPush(s: State, t: Thread, all: set<Conn>)
    requires EachInOnePlace(s, all) && Enabled(s, Push(t))
    ensures EachInOnePlace(After(s, Push(t)), all)
  {
    var r, c := After(s, Push(t)), s.threads[t].conn;
    assert GivesBack(s, t, c);
    assert forall u, d :: GivesBack(r, u, d) <==> GivesBack(s, u, d) && u != t;
    assert forall d :: d in r.free <==> d in s.free || d == c;
  }

  /** Moving threads between states that give nothing back, or that give back the same, conserves. */
  lemma ConservedByMove(s: State, r: State, all: set<Conn>)
    requires EachInOnePlace(s, all)
    requires r.free == s.free && r.leased == s.leased
    requires forall u, d :: GivesBack(r, u, d) <==> GivesBack(s, u, d)
    ensures EachInOnePlace(r, all)
  {
  }

  lemma Conserved(s: State, e: Event, all: set<Conn>)
    requires LockIsExclusive(s) && EachInOnePlace(s, all) && Enabled(s, e)
    ensures EachInOnePlace(After(s, e), all)
  {
    match e
    case Pop(t) => ConservedByPop(s, t, all);
    case Drop(t, c) => ConservedByDrop(s, t, c, all);
    case Push(t) => ConservedByPush(s, t, all);
    case _ => ConservedByMove(s, After(s, e), all);
  }

  // ----- no lost wakeup -----

  lemma WakeupKept(s: State, e: Event)
    requires LockIsExclusive(s) && NoWakeupLost(s) && Enabled(s, e)
    ensures NoWakeupLost(After(s, e))
  {
    var r := After(s, e);
    match e
    case Wait(t) => assert r.free == [];
    case Notify(t, woken) => NotifyKeeps(s, t, woken);
    case Pop(t) => MoveKeeps(s, r, t, Outside);
    case Push(t) => MoveKeeps(s, r, t, Notifying);
    case Call(t) => MoveKeeps(s, r, t, Calling);
    case Lock(t) => MoveKeeps(s, r, t, Looking(false));
    case Wake(t) => MoveKeeps(s, r, t, Woken);
    case Relock(t) => MoveKeeps(s, r, t, Looking(true));
    case Drop(t, c) => MoveKeeps(s, r, t, Returning(c));
    case LockToReturn(t) => MoveKeeps(s, r, t, Pushing(s.threads[t].conn));
  }

  /** A thread that moves, not into the wait set, may leave the helpers only
      with a connection it took, and join them with one it put back. */
  lemma MoveKeeps(s: State, r: State, t: Thread, at: At)
    requires NoWakeupLost(s) && t in s.threads && !at.Waiting?
    requires r.threads == s.threads[t := at]
    requires |r.free| + (if Helps(s.threads[t]) then 1 else 0) <= |s.free| + (if Helps(at) then 1 else 0)
    ensures NoWakeupLost(r)
  {
    if SomeoneWaits(r) {
      var w :| Is(r, w, Waiting);
      assert Is(s, w, Waiting);
      HelpersMoved(s, r, t, at);
    }
  }

  lemma HelpersMoved(s: State, r: State, t: Thread, at: At)
    requires t in s.threads && r.threads == s.threads[t := at]
    ensures |Helpers(r)| == |Helpers(s)| - (if Helps(s.threads[t]) then 1 else 0) + (if Helps(at) then 1 else 0)
  {
    assert Helpers(r) == if Helps(at) then Helpers(s) - {t} + {t} else Helpers(s) - {t};
  }

  lemma NotifyKeeps(s: State, t: Thread, woken: Option<Thread>)
    requires NoWakeupLost(s) && Enabled(s, Notify(t, woken))
    ensures NoWakeupLost(After(s, Notify(t, woken)))
  {
    var r := After(s, Notify(t, woken));
    match woken
    case None =>
      assert forall w :: w in r.threads ==> !Is(r, w, Waiting);
    case Some(w) =>
      assert Is(s, w, Waiting);
      HelpersMoved(s, Moved(s, t, Outside), t, Outside);
      HelpersMoved(Moved(s, t, Outside), r, w, Woken);
  }

  // ----- over whole runs -----

  lemma InitialInv(s: State, all: set<Conn>)
    requires Initial(s, all)
    ensures Inv(s, all)
  {
    assert forall c :: c in s.free <==> c in set d | d in s.free;
  }

  lemma InvKept(s: State, e: Event, all: set<Conn>)
    requires Inv(s, all) && Enabled(s, e)
    ensures Inv(After(s, e), all)
  {
    LockStaysExclusive(s, e);
    Conserved(s, e, all);
    WakeupKept(s, e);
  }

  lemma {:induction false} InvAlways(s: State, events: seq<Event>, all: set<Conn>)
    requires Inv(s, all) && Run(s, events).Some?
    ensures Inv(Run(s, events).value, all)
    decreases |events|
  {
    if events != [] {
      InvKept(s, events[0], all);
      InvAlways(After(s, events[0]), events[1..], all);
    }
  }

  /** In every reachable state: a lease is held by one thread, of a connection
      that is not free; nothing is lost or made up; and no wakeup is lost. */
  lemma PoolIsSafe(s: State, events: seq<Event>, all: set<Conn>)
    requires Initial(s, all) && Run(s, events).Some?
    ensures var r := Run(s, events).value;
            && (forall c :: c in r.leased ==> c !in r.free && forall t :: !GivesBack(r, t, c))
            && (forall c :: c in all <==> c in r.free || c in r.leased || exists t :: GivesBack(r, t, c))
            && (forall i, j :: 0 <= i < j < |r.free| ==> r.free[i] != r.free[j])
            && (SomeoneWaits(r) ==> |r.free| <= |Helpers(r)|)
  {
    InitialInv(s, all);
    InvAlways(s, events, all);
  }

  /** When nothing is under way, a thread still waits only if every connection is leased. */
  lemma QuiescentWaiterMeansAllLeased(s: State, events: seq<Event>, all: set<Conn>)
    requires Initial(s, all) && Run(s, events).Some?
    requires SomeoneWaits(Run(s, events).value)
    requires forall t :: t in Run(s, events).value.threads ==>
               Run(s, events).value.threads[t].Outside? || Run(s, events).value.threads[t].Waiting?
    ensures Run(s, events).value.leased.Keys == all && Run(s, events).value.free == []
  {
    PoolIsSafe(s, events, all);
    var r := Run(s, events).value;
    assert Helpers(r) == {};
    assert forall t, c :: !GivesBack(r, t, c);
  }

  /** The thread an event belongs to. */
  function Actor(e: Event): Thread {
    e.t
  }

  /** A thread never waits beside a free connection with nobody able to act:
      some notifier or woken thread, or the one that holds the lock, can take its next step. */
  lemma WaiterIsNotForgotten(s: State, events: seq<Event>, all: set<Conn>) returns (e: Event)
    requires Initial(s, all) && Run(s, events).Some?
    requires SomeoneWaits(Run(s, events).value) && Run(s, events).value.free != []
    ensures Enabled(Run(s, events).value, e)
    ensures Actor(e) in Helpers(Run(s, events).value) || Run(s, events).value.lock == Some(Actor(e))
    ensures !e.Wait?
  {
    InitialInv(s, all);
    InvAlways(s, events, all);
    var r := Run(s, events).value;
    if r.lock.Some? {
      var t := r.lock.value;
      e := if r.threads[t].Looking? then Pop(t) else Push(t);
    } else {
      assert Helpers(r) != {};
      var t :| t in Helpers(r);
      if r.threads[t].Woken? {
        e := Relock(t);
      } else {
        var w :| Is(r, w, Waiting);
        e := Notify(t, Some(w));
      }
    }
  }
}
