/** Lock objects of several processes on one lock file: each process runs its threads on a
    BaseFileLock, and the file behind them is only known through its Mutex specification. */
module SharedLock {
  import opened Wrappers
  import Mutex
  import opened ReentrantLock

  type Process = Mutex.Agent

  // The owner of the lock file, and the lock object and threads of each process
  datatype World = World(owner: Option<Process>, procs: map<Process, State>) {
    function P(p: Process): State {
      if p in procs then procs[p] else START
    }
  }

  datatype Action =
    | Thread(e: Event)  // a thread of the process takes a step
    | Crash             // the process dies; the system gives its lock file back

  datatype WorldEvent = WorldEvent(p: Process, act: Action)

  // What a thread's call of _acquire comes to: it is granted only while the lock file is free.
  function Effective(owner: Option<Process>, e: Event): Event {
    if e.o.Proceed? then e.(o := Proceed(e.o.granted && Mutex.CanAcquire(owner), e.o.expired)) else e
  }

  // The lock file changes hands when the process's descriptor is set or cleared.
  function NewOwner(owner: Option<Process>, p: Process, before: bool, after: bool): Option<Process> {
    if !before && after then Some(p) else if before && !after then None else owner
  }

  function ApplyWorld(w: World, we: WorldEvent): World {
    var s := w.P(we.p);
    match we.act
    case Thread(e) =>
      var t := Apply(s, Effective(w.owner, e));
      World(NewOwner(w.owner, we.p, s.obj.locked, t.obj.locked), w.procs[we.p := t])
    case Crash =>
      World(NewOwner(w.owner, we.p, s.obj.locked, false), w.procs[we.p := START])
  }

  function RunWorld(events: seq<WorldEvent>): World {
    if events == [] then World(None, map[])
    else ApplyWorld(RunWorld(events[..|events| - 1]), events[|events| - 1])
  }

  // The steps of one process's threads since it last started, as its lock object saw them
  function Local(events: seq<WorldEvent>, p: Process): seq<Event> {
    if events == [] then []
    else
      var front, last := events[..|events| - 1], events[|events| - 1];
      if last.p != p then Local(front, p)
      else match last.act
        case Thread(e) => Local(front, p) + [Effective(RunWorld(front).owner, e)]
        case Crash => []
  }

  /** Each process behaves as its lock object does by itself, so what is proved of one lock object
      holds in every process. */
  lemma {:induction false} ProcessesRunLocally(events: seq<WorldEvent>, p: Process)
    ensures RunWorld(events).P(p) == Run(Local(events, p))
  {
    if events != [] {
      var front, last := events[..|events| - 1], events[|events| - 1];
      ProcessesRunLocally(front, p);
      hide Apply;
      if last.p == p && last.act.Thread? {
        RunNext(Local(front, p), Effective(RunWorld(front).owner, last.act.e));
      }
    }
  }

  // The descriptor of a process is set exactly while it owns the lock file.
  ghost predicate OwnerIsLocked(w: World) {
    forall p: Process :: w.P(p).obj.locked <==> w.owner == Some(p)
  }

  // A step sets the descriptor only if _acquire was granted.
  lemma LocksOnlyIfGranted(s: State, e: Event)
    requires !s.obj.locked && Apply(s, e).obj.locked
    ensures e.o.Proceed? && e.o.granted
  {
  }

  /** Every step uses the lock file as a mutex, and keeps its owner the one process whose
      descriptor is set. */
  lemma StepUsesMutex(w: World, we: WorldEvent)
    requires OwnerIsLocked(w)
    ensures OwnerIsLocked(ApplyWorld(w, we))
    ensures Mutex.Next(w.owner, ApplyWorld(w, we).owner, we.p)
  {
    var w' := ApplyWorld(w, we);
    assert w.P(we.p).obj.locked <==> w.owner == Some(we.p);
    if we.act.Thread? {
      var e := Effective(w.owner, we.act.e);
      if !w.P(we.p).obj.locked && Apply(w.P(we.p), e).obj.locked {
        LocksOnlyIfGranted(w.P(we.p), e);
      }
    }
    hide Apply;
    forall p: Process ensures w'.P(p).obj.locked <==> w'.owner == Some(p) {
      assert w.P(p).obj.locked <==> w.owner == Some(p);
      assert p != we.p ==> w'.P(p) == w.P(p);
    }
  }

  lemma {:induction false} RunKeepsOwner(events: seq<WorldEvent>)
    ensures OwnerIsLocked(RunWorld(events))
  {
    if events != [] {
      RunKeepsOwner(events[..|events| - 1]);
      StepUsesMutex(RunWorld(events[..|events| - 1]), events[|events| - 1]);
    }
  }

  /** Threads of two processes are never inside the lock at the same time, whatever times out,
      raises, leaks or crashes. */
  lemma InsideExclusive(events: seq<WorldEvent>, p: Process, q: Process)
    requires InPhase(RunWorld(events).P(p), Inside) != {} && InPhase(RunWorld(events).P(q), Inside) != {}
    ensures p == q && RunWorld(events).owner == Some(p)
  {
    RunKeepsOwner(events);
    ProcessesRunLocally(events, p);
    ProcessesRunLocally(events, q);
    CounterCountsSessions(Local(events, p));
    CounterCountsSessions(Local(events, q));
  }

  /** The last release of a process, and its crash, free the lock file for every other process. */
  lemma LastReleaseFreesFile(events: seq<WorldEvent>, p: Process, act: Action)
    requires RunWorld(events).owner == Some(p)
    ensures var w := RunWorld(events);
      ApplyWorld(w, WorldEvent(p, act)).owner == None <==>
      act.Crash? || (act.e.t in InPhase(w.P(p), Inside) && w.P(p).phases.Keys == {act.e.t})
  {
    RunKeepsOwner(events);
    ProcessesRunLocally(events, p);
    var w := RunWorld(events);
    if act.Thread? {
      var e := Effective(w.owner, act.e);
      var local := Local(events, p);
      assert w.P(p).obj.locked;
      hide RunWorld, Local;
      if !Apply(Run(local), e).obj.locked {
        LockedUntilLastRelease(local, e);
      }
      if e.t in InPhase(Run(local), Inside) {
        ReleaseDropsLockIffLast(local, e);
      }
    }
  }

  /** A poll makes the process the owner of the lock file exactly if the file system grants it and
      nobody owns the file; then the thread is inside with its next step. */
  lemma PollTakesIffFree(w: World, p: Process, t: Session, granted: bool, expired: bool)
    requires t in w.P(p).phases && w.P(p).phases[t] == Polling && !w.P(p).obj.locked && w.owner != Some(p)
    ensures var w' := ApplyWorld(w, WorldEvent(p, Thread(Event(t, Proceed(granted, expired)))));
      && (w'.owner == Some(p) <==> granted && w.owner == None)
      && (w'.owner == Some(p) ==>
            t in InPhase(ApplyWorld(w', WorldEvent(p, Thread(Event(t, Proceed(false, expired))))).P(p), Inside))
  {
  }
}
