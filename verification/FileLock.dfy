/** The mutual-exclusion specification that the lock files implement: at most one owner,
    taken only when free and given back only by its owner. */
module Mutex {
  import opened Wrappers

  type Agent = nat

  predicate CanAcquire(owner: Option<Agent>) {
    owner.None?
  }

  // One action of agent a: take the free mutex, give back its own mutex, or neither.
  predicate Next(owner: Option<Agent>, owner': Option<Agent>, a: Agent) {
    || owner' == owner
    || (CanAcquire(owner) && owner' == Some(a))
    || (owner == Some(a) && owner' == None)
  }
}

/** The lock file protocol of tools/filelock.py (class UnixFileLock).  Every system call of
    every agent is one step; agents interleave freely and may crash between any two calls.
    Identity is that of open files (inodes), which are never reused while open. */
module FileLock {
  import opened Wrappers
  import Mutex

  type Agent = Mutex.Agent
  type Inode = nat

  // The part of the file system one lock path can see: the inode the path names, the next
  // fresh inode, and the agent whose open file holds the exclusive flock of an inode.
  datatype FileSystem = FileSystem(path: Option<Inode>, next: Inode, flock: map<Inode, Agent>) {
    // os.open with O_CREAT
    function Open(): (FileSystem, Inode) {
      match path
      case Some(i) => (this, i)
      case None => (this.(path := Some(next), next := next + 1), next)
    }

    // fcntl.flock with LOCK_EX | LOCK_NB; false is the raised OSError
    function TryFlock(i: Inode, a: Agent): (FileSystem, bool) {
      if i in flock then (this, false) else (this.(flock := flock[i := a]), true)
    }

    // os.fstat(fd).st_nlink, without hard links
    function LinkCount(i: Inode): nat {
      if path == Some(i) then 1 else 0
    }

    // os.unlink; false is the raised FileNotFoundError
    function Unlink(): (FileSystem, bool) {
      (this.(path := None), path.Some?)
    }

    // fcntl.flock with LOCK_UN, and os.close, both drop the caller's flock on i
    function Drop(i: Inode, a: Agent): FileSystem {
      if i in flock && flock[i] == a then this.(flock := flock - {i}) else this
    }

    // Process exit closes every file the agent had open.
    function DropAll(a: Agent): FileSystem {
      this.(flock := map i | i in flock && flock[i] != a :: flock[i])
    }
  }

  // Where an agent is in _acquire and _release; i is the inode behind its descriptor.
  datatype PC =
    | Idle
    | Opened(i: Inode)     // about to flock
    | Refused(i: Inode)    // flock raised, about to close
    | Flocked(i: Inode)    // about to fstat
    | Stale(i: Inode)      // st_nlink was 0, about to close
    | Holding(i: Inode)    // _lock_file_fd is set
    | Releasing(i: Inode)  // _lock_file_fd cleared, about to unlink
    | Unlinked(i: Inode)   // about to flock(LOCK_UN)
    | Unlocked(i: Inode)   // about to close
    | Failed(i: Inode)     // os.unlink raised

  datatype State = State(fs: FileSystem, pcs: map<Agent, PC>) {
    function Pc(a: Agent): PC {
      if a in pcs then pcs[a] else Idle
    }

    function At(fs': FileSystem, a: Agent, pc: PC): State {
      State(fs', pcs[a := pc])
    }
  }

  datatype Event = Step(a: Agent) | Crash(a: Agent)

  // The next system call of agent a.
  function DoStep(s: State, a: Agent): State {
    match s.Pc(a)
    case Idle =>
      var (fs, i) := s.fs.Open();
      s.At(fs, a, Opened(i))
    case Opened(i) =>
      var (fs, ok) := s.fs.TryFlock(i, a);
      s.At(fs, a, if ok then Flocked(i) else Refused(i))
    case Refused(i) => s.At(s.fs.Drop(i, a), a, Idle)
    case Flocked(i) => s.At(s.fs, a, if s.fs.LinkCount(i) == 0 then Stale(i) else Holding(i))
    case Stale(i) => s.At(s.fs.Drop(i, a), a, Idle)
    case Holding(i) => s.At(s.fs, a, Releasing(i))
    case Releasing(i) =>
      var (fs, ok) := s.fs.Unlink();
      s.At(fs, a, if ok then Unlinked(i) else Failed(i))
    case Unlinked(i) => s.At(s.fs.Drop(i, a), a, Unlocked(i))
    case Unlocked(i) => s.At(s.fs.Drop(i, a), a, Idle)
    case Failed(i) => s
  }

  // A crashed agent may come back as a new process.
  function DoCrash(s: State, a: Agent): State {
    s.At(s.fs.DropAll(a), a, Idle)
  }

  function Apply(s: State, e: Event): State {
    match e
    case Step(a) => DoStep(s, a)
    case Crash(a) => DoCrash(s, a)
  }

  function Run(s: State, events: seq<Event>): State {
    if events == [] then s else Apply(Run(s, events[..|events| - 1]), events[|events| - 1])
  }

  // Nobody runs yet; a lock file may be left over from earlier crashes.
  predicate Initial(s: State) {
    && s.fs.flock == map[]
    && s.pcs == map[]
    && (s.fs.path.Some? ==> s.fs.path.value < s.fs.next)
  }

  // The agent's open file holds the flock at this point of its program.
  predicate OwnsFlock(pc: PC) {
    pc.Flocked? || pc.Stale? || pc.Holding? || pc.Releasing? || pc.Unlinked?
  }

  // The agent is inside the critical section, from setting _lock_file_fd up to the unlink.
  predicate Holds(s: State, a: Agent) {
    s.Pc(a).Holding? || s.Pc(a).Releasing?
  }

  ghost predicate Invariant(s: State) {
    && (s.fs.path.Some? ==> s.fs.path.value < s.fs.next)
    && FlocksInvariant(s)
    && (forall a :: AgentInvariant(s, a))
  }

  ghost predicate FlocksInvariant(s: State) {
    forall i | i in s.fs.flock :: OwnsFlock(s.Pc(s.fs.flock[i])) && s.Pc(s.fs.flock[i]).i == i
  }

  ghost predicate AgentInvariant(s: State, a: Agent) {
    var pc := s.Pc(a);
    && !pc.Failed?
    && (!pc.Idle? ==> pc.i < s.fs.next)
    && (OwnsFlock(pc) ==> pc.i in s.fs.flock && s.fs.flock[pc.i] == a)
    && (Holds(s, a) ==> s.fs.path == Some(pc.i))
    && (pc.Stale? || pc.Unlinked? || pc.Unlocked? ==> s.fs.path != Some(pc.i))
  }

  lemma ActorKeepsInvariant(s: State, a: Agent)
    requires Invariant(s)
    ensures AgentInvariant(DoStep(s, a), a)
    ensures var fs := DoStep(s, a).fs; fs.path.Some? ==> fs.path.value < fs.next
  {
    assert AgentInvariant(s, a);
  }

  lemma OtherKeepsInvariant(s: State, a: Agent, b: Agent)
    requires AgentInvariant(s, a) && AgentInvariant(s, b) && a != b
    ensures AgentInvariant(DoStep(s, a), b)
  {
  }

  lemma StepKeepsFlocks(s: State, a: Agent)
    requires Invariant(s)
    ensures FlocksInvariant(DoStep(s, a))
  {
    assert AgentInvariant(s, a);
    var pc := s.Pc(a);
    forall i | i in s.fs.flock && s.fs.flock[i] != a ensures DoStep(s, a).Pc(s.fs.flock[i]) == s.Pc(s.fs.flock[i]) {
    }
  }

  lemma StepKeepsInvariant(s: State, a: Agent)
    requires Invariant(s)
    ensures Invariant(DoStep(s, a))
  {
    ActorKeepsInvariant(s, a);
    StepKeepsFlocks(s, a);
    hide DoStep, FlocksInvariant;
    forall b ensures AgentInvariant(DoStep(s, a), b) {
      assert AgentInvariant(s, b) && AgentInvariant(s, a);
      if a != b {
        OtherKeepsInvariant(s, a, b);
      }
    }
  }

  lemma CrashKeepsInvariant(s: State, a: Agent)
    requires Invariant(s)
    ensures Invariant(DoCrash(s, a))
  {
    forall b ensures AgentInvariant(DoCrash(s, a), b) {
      assert AgentInvariant(s, b);
    }
  }

  lemma {:induction false} RunKeepsInvariant(s: State, events: seq<Event>)
    requires Initial(s)
    ensures Invariant(Run(s, events))
  {
    if events == [] {
      assert Invariant(s);
    } else {
      var before := Run(s, events[..|events| - 1]);
      RunKeepsInvariant(s, events[..|events| - 1]);
      match events[|events| - 1]
      case Step(a) => StepKeepsInvariant(before, a);
      case Crash(a) => CrashKeepsInvariant(before, a);
    }
  }

  /** Mutual exclusion over every interleaving and every pattern of crashes. */
  lemma MutualExclusion(s: State, events: seq<Event>, a: Agent, b: Agent)
    requires Initial(s)
    requires Holds(Run(s, events), a) && Holds(Run(s, events), b)
    ensures a == b
  {
    RunKeepsInvariant(s, events);
    var r := Run(s, events);
    assert AgentInvariant(r, a) && AgentInvariant(r, b);
  }

  /** The unlink in _release never raises, and removes the releasing agent's own inode; no
      other event ever takes the path away, so a holder's lock file stays in place. */
  lemma UnlinkRemovesOwnFile(s: State, events: seq<Event>, e: Event)
    requires Initial(s)
    ensures var before, after := Run(s, events), Apply(Run(s, events), e);
      && !after.Pc(e.a).Failed?
      && (e.Step? && before.Pc(e.a).Releasing? ==>
            before.fs.path == Some(before.Pc(e.a).i) && after.fs.path == None)
      && (before.fs.path.Some? && after.fs.path != before.fs.path ==>
            e.Step? && before.Pc(e.a).Releasing?)
      && (forall b | Holds(before, b) && b != e.a :: after.fs.path == before.fs.path == Some(before.Pc(b).i))
  {
    RunKeepsInvariant(s, events);
    var before := Run(s, events);
    assert AgentInvariant(before, e.a);
    forall b | Holds(before, b) && b != e.a
      ensures Apply(before, e).fs.path == before.fs.path == Some(before.Pc(b).i)
    {
      assert AgentInvariant(before, b);
    }
  }

  // The abstract owner: whoever flocks the inode the path names and has passed the fstat check.
  function Owner(s: State): Option<Agent> {
    if s.fs.path.Some? && s.fs.path.value in s.fs.flock && Holds(s, s.fs.flock[s.fs.path.value])
    then Some(s.fs.flock[s.fs.path.value])
    else None
  }

  lemma OwnerIsHolder(s: State, a: Agent)
    requires Invariant(s)
    ensures Owner(s) == Some(a) <==> Holds(s, a)
  {
    assert AgentInvariant(s, a);
  }

  /** Refinement: every system call and every crash is one action of the abstract mutex by the
      same agent, so whatever is proved of the mutex holds of the lock file. */
  lemma RefinesMutex(s: State, events: seq<Event>, e: Event)
    requires Initial(s)
    ensures Mutex.Next(Owner(Run(s, events)), Owner(Run(s, events + [e])), e.a)
  {
    RunKeepsInvariant(s, events);
    RunKeepsInvariant(s, events + [e]);
    assert (events + [e])[..|events|] == events;
    hide Owner, FlocksInvariant, AgentInvariant;
    var before, after := Run(s, events), Run(s, events + [e]);
    assert after == Apply(before, e);
    OwnerIsHolder(before, e.a);
    OwnerIsHolder(after, e.a);
    if Owner(before) != None && Owner(before) != Some(e.a) {
      var b := Owner(before).value;
      OwnerIsHolder(before, b);
      OwnerIsHolder(after, b);
      assert after.Pc(b) == before.Pc(b);
    }
    if Owner(after) != None && Owner(after) != Some(e.a) {
      var b := Owner(after).value;
      OwnerIsHolder(before, b);
      OwnerIsHolder(after, b);
      assert after.Pc(b) == before.Pc(b);
    }
  }

  // One _acquire call of agent a with nobody else running in between.
  function AttemptAlone(s: State, a: Agent): State {
    DoStep(DoStep(DoStep(s, a), a), a)
  }

  /** An attempt that runs alone succeeds exactly when nobody flocks the inode the path names,
      and otherwise leaves the file system as it was. */
  lemma AttemptAloneSucceedsIffUnlocked(s: State, events: seq<Event>, a: Agent)
    requires Initial(s)
    requires Run(s, events).Pc(a).Idle?
    ensures var before, after := Run(s, events), AttemptAlone(Run(s, events), a);
      && (after.Pc(a).Holding? <==> before.fs.path.None? || before.fs.path.value !in before.fs.flock)
      && (after.Pc(a).Holding? ==> Owner(after) == Some(a))
      && (!after.Pc(a).Holding? ==> after.Pc(a).Idle? && after.fs == before.fs)
  {
    RunKeepsInvariant(s, events);
    var before := Run(s, events);
    assert AgentInvariant(before, a);
    StepKeepsInvariant(before, a);
    var mid := DoStep(before, a);
    assert AgentInvariant(mid, a);
    StepKeepsInvariant(mid, a);
    StepKeepsInvariant(DoStep(mid, a), a);
    OwnerIsHolder(AttemptAlone(before, a), a);
    assert forall i | i in before.fs.flock :: AgentInvariant(before, before.fs.flock[i]);
  }

  /** Crash recovery: once no living agent flocks anything, the next attempt gets the lock,
      whatever lock file the crashed agents left behind. */
  lemma CrashRecovery(s: State, events: seq<Event>, a: Agent)
    requires Initial(s)
    requires Run(s, events).fs.flock == map[]
    requires Run(s, events).Pc(a).Idle?
    ensures AttemptAlone(Run(s, events), a).Pc(a).Holding?
  {
    AttemptAloneSucceedsIffUnlocked(s, events, a);
  }

  /** The owner's crash alone is enough to let any idle agent in. */
  lemma OwnerCrashFreesLock(s: State, events: seq<Event>, owner: Agent, a: Agent)
    requires Initial(s)
    requires Holds(Run(s, events), owner)
    requires a != owner && Run(s, events).Pc(a).Idle?
    ensures !AttemptAlone(Run(s, events), a).Pc(a).Holding?
    ensures AttemptAlone(Run(s, events + [Crash(owner)]), a).Pc(a).Holding?
  {
    assert (events + [Crash(owner)])[..|events|] == events;
    RunKeepsInvariant(s, events);
    assert AgentInvariant(Run(s, events), owner);
    AttemptAloneSucceedsIffUnlocked(s, events, a);
    AttemptAloneSucceedsIffUnlocked(s, events + [Crash(owner)], a);
  }

  // How many steps an agent is from the end of its _acquire or _release
  function StepsLeft(pc: PC): nat {
    match pc
    case Opened(_) => 3
    case Flocked(_) => 2
    case Refused(_) => 1
    case Stale(_) => 1
    case Releasing(_) => 3
    case Unlinked(_) => 2
    case Unlocked(_) => 1
    case _ => 0
  }

  /** No call hangs: in every reachable state each step of an agent within _acquire or _release brings
      it nearer to the end, where it is idle or holds the lock, whatever the others do in between. */
  lemma CallsEnd(s: State, events: seq<Event>, e: Event)
    requires Initial(s)
    ensures var before, after := Run(s, events), Apply(Run(s, events), e);
      && (StepsLeft(before.Pc(e.a)) > 0 ==> StepsLeft(after.Pc(e.a)) < StepsLeft(before.Pc(e.a)))
      && (StepsLeft(before.Pc(e.a)) == 0 ==> before.Pc(e.a).Idle? || before.Pc(e.a).Holding?)
      && (forall b | b != e.a :: after.Pc(b) == before.Pc(b))
  {
    RunKeepsInvariant(s, events);
    assert AgentInvariant(Run(s, events), e.a);
    hide Run;
  }

  // The file system as an object that system calls change.
  class Kernel {
    var fs: FileSystem

    constructor (fs: FileSystem)
      ensures this.fs == fs
    {
      this.fs := fs;
    }

    method Open() returns (i: Inode)
      modifies this
      ensures (fs, i) == old(fs.Open())
    {
      var r := fs.Open();
      fs, i := r.0, r.1;
    }

    method TryFlock(i: Inode, a: Agent) returns (ok: bool)
      modifies this
      ensures (fs, ok) == old(fs.TryFlock(i, a))
    {
      var r := fs.TryFlock(i, a);
      fs, ok := r.0, r.1;
    }

    method Unlink() returns (ok: bool)
      modifies this
      ensures (fs, ok) == old(fs.Unlink())
    {
      var r := fs.Unlink();
      fs, ok := r.0, r.1;
    }

    method Drop(i: Inode, a: Agent)
      modifies this
      ensures fs == old(fs.Drop(i, a))
    {
      fs := fs.Drop(i, a);
    }
  }

  /** UnixFileLock as an object, its two methods running without interference. */
  class UnixFileLock {
    const me: Agent
    const kernel: Kernel
    var fd: Option<Inode>

    constructor (me: Agent, kernel: Kernel)
      ensures this.me == me && this.kernel == kernel && fd == None
    {
      this.me, this.kernel, fd := me, kernel, None;
    }

    // This object's view of the protocol state.
    function View(): State
      reads this, kernel
    {
      State(kernel.fs, map[me := if fd.Some? then Holding(fd.value) else Idle])
    }

    method Acquire()
      requires fd.None?
      modifies this, kernel
      ensures View() == AttemptAlone(old(View()), me)
    {
      var i := kernel.Open();
      var ok := kernel.TryFlock(i, me);
      if ok && kernel.fs.LinkCount(i) != 0 {
        fd := Some(i);
      } else {
        kernel.Drop(i, me);
      }
    }

    // Raises, with the open file left behind, if the lock file is gone; see UnlinkRemovesOwnFile.
    method Release() returns (raised: bool)
      requires fd.Some?
      modifies this, kernel
      ensures fd.None?
      ensures raised <==> old(kernel.fs.path).None?
      ensures raised ==> kernel.fs == old(kernel.fs)
      ensures !raised ==> View() == ReleaseAlone(old(View()), me)
    {
      var i := fd.value;
      fd := None;
      var ok := kernel.Unlink();
      if !ok {
        return true;
      }
      kernel.Drop(i, me);
      kernel.Drop(i, me);
      return false;
    }
  }

  // One _release call of agent a with nobody else running in between.
  function ReleaseAlone(s: State, a: Agent): State {
    DoStep(DoStep(DoStep(DoStep(s, a), a), a), a)
  }

  /** A holder that releases alone leaves the path free and itself idle. */
  lemma ReleaseAloneFreesLock(s: State, events: seq<Event>, a: Agent)
    requires Initial(s)
    requires Run(s, events).Pc(a).Holding?
    ensures var after := ReleaseAlone(Run(s, events), a);
      after.Pc(a).Idle? && after.fs.path.None? && Owner(after) == None &&
      after.fs.flock == Run(s, events).fs.flock - {Run(s, events).Pc(a).i}
  {
    RunKeepsInvariant(s, events);
    assert AgentInvariant(Run(s, events), a);
  }
}
