/** The process-wide cache lock and the create-once cache of tools/cache.py: any number of
    processes, each running a stack of nested get / erase_file / lock calls, over one file
    lock that is only known through its Mutex specification. */
module Cache {
  import opened Wrappers
  import Mutex
  import ReentrantLock

  type Process = Mutex.Agent
  type Name = string

  datatype Call = Get(name: Name) | Erase(name: Name) | Region

  datatype Phase =
    | Checking                // get: about to test for the file without the lock
    | Acquiring               // about to call acquire_cache_lock
    | Taken                   // file lock taken, count and environment not yet updated
    | Locked                  // acquire_cache_lock returned
    | Building(written: bool) // the creator, or the body of a region, is running
    | Leaving                 // about to call release_cache_lock
    | Dropping                // count is back to 0, about to give the file lock back

  datatype Frame = Frame(call: Call, phase: Phase)

  // acquired_count, EM_CACHE_IS_LOCKED in the environment, and the stack of active calls
  datatype Proc = Proc(count: int, env: bool, frames: seq<Frame>) {
    function Top(): Frame
      requires frames != []
    {
      frames[|frames| - 1]
    }

    function WithTop(phase: Phase): Proc
      requires frames != []
    {
      this.(frames := frames[..|frames| - 1] + [Top().(phase := phase)])
    }

    function Pop(): Proc
      requires frames != []
    {
      this.(frames := frames[..|frames| - 1])
    }

    // Names whose creator is running somewhere on the stack
    function Creating(): set<Name> {
      set k | 0 <= k < |frames| && frames[k].call.Get? && frames[k].phase.Building? :: frames[k].call.name
    }

    // ... and has not made its file yet
    function Unwritten(): set<Name> {
      set k | 0 <= k < |frames| && frames[k].call.Get? && frames[k].phase == Building(false) :: frames[k].call.name
    }
  }

  const NEW_PROC := Proc(0, false, [])

  // files: the names that exist in the cache.  The other fields record history: how often the
  // creator of a name was started, died before making its file, and the file was erased.
  datatype State = State(files: set<Name>, owner: Option<Process>, procs: map<Process, Proc>,
                         started: multiset<Name>, lost: multiset<Name>, erased: multiset<Name>) {
    function P(p: Process): Proc {
      if p in procs then procs[p] else NEW_PROC
    }

    function With(p: Process, proc: Proc): State {
      this.(procs := procs[p := proc])
    }
  }

  datatype Action =
    | Begin(call: Call)  // enter a call, from outside or from a running creator or region
    | Advance            // take the next step of the innermost call
    | Write              // the innermost creator makes its file
    | Crash              // the process dies; the system gives its file lock back

  datatype Event = Event(p: Process, act: Action)

  // A creator does not ask for, or erase, a name whose creator is already running below it.
  predicate CanBegin(proc: Proc, call: Call) {
    && (proc.frames == [] || proc.Top().phase.Building?)
    && (call.Region? || call.name !in proc.Creating())
  }

  function Advanced(s: State, p: Process): State
    requires s.P(p).frames != []
  {
    var proc := s.P(p);
    var call := proc.Top().call;
    match proc.Top().phase
    case Checking =>
      if call.Get? && call.name in s.files then s.With(p, proc.Pop())
      else s.With(p, proc.WithTop(Acquiring))
    case Acquiring =>
      if proc.count != 0 then s.With(p, proc.WithTop(Locked).(count := proc.count + 1))
      else if Mutex.CanAcquire(s.owner) then s.(owner := Some(p)).With(p, proc.WithTop(Taken))
      else s
    case Taken => s.With(p, proc.WithTop(Locked).(count := proc.count + 1, env := true))
    case Locked =>
      if call.Region? then s.With(p, proc.WithTop(Building(true)))
      else if call.Erase? then
        s.(files := s.files - {call.name},
           erased := if call.name in s.files then s.erased + multiset{call.name} else s.erased)
         .With(p, proc.WithTop(Leaving))
      else if call.name in s.files then s.With(p, proc.WithTop(Leaving))
      else s.(started := s.started + multiset{call.name}).With(p, proc.WithTop(Building(false)))
    case Building(written) =>
      // finishing without having made the file trips an assertion: that is the event Crash
      if written then s.With(p, proc.WithTop(Leaving)) else s
    case Leaving =>
      if proc.count - 1 == 0 then s.With(p, proc.WithTop(Dropping).(count := 0, env := false))
      else s.With(p, proc.Pop().(count := proc.count - 1))
    case Dropping => s.(owner := None).With(p, proc.Pop())
  }

  function Crashed(s: State, p: Process): State {
    s.(lost := s.lost + multiset(s.P(p).Unwritten()),
       owner := if s.owner == Some(p) then None else s.owner).With(p, NEW_PROC)
  }

  function Apply(s: State, e: Event): State {
    var proc := s.P(e.p);
    match e.act
    case Begin(call) =>
      if CanBegin(proc, call)
      then s.With(e.p, proc.(frames := proc.frames + [Frame(call, if call.Get? then Checking else Acquiring)]))
      else s
    case Advance => if proc.frames == [] then s else Advanced(s, e.p)
    case Write =>
      if proc.frames != [] && proc.Top().call.Get? && proc.Top().phase.Building?
      then s.(files := s.files + {proc.Top().call.name}).With(e.p, proc.WithTop(Building(true)))
      else s
    case Crash => Crashed(s, e.p)
  }

  function Start(files: set<Name>): State {
    State(files, None, map[], multiset{}, multiset{}, multiset{})
  }

  function Run(files: set<Name>, events: seq<Event>): State {
    if events == [] then Start(files) else Apply(Run(files, events[..|events| - 1]), events[|events| - 1])
  }

  predicate Counted(phase: Phase) {
    phase.Locked? || phase.Building? || phase.Leaving?
  }

  predicate InTransit(proc: Proc) {
    proc.frames != [] && (proc.Top().phase.Taken? || proc.Top().phase.Dropping?)
  }

  // Below the innermost call everything is a running creator or region, and no creator runs
  // for a name already being created below it.
  ghost predicate FramesInvariant(frames: seq<Frame>) {
    && (forall k | 0 <= k < |frames| - 1 :: frames[k].phase.Building?)
    && (forall k | 0 <= k < |frames| :: FrameInvariant(frames[k]))
    && (forall j, k | 0 <= j < k < |frames| && frames[j].call.Get? && !frames[k].call.Region? ::
          frames[j].call.name != frames[k].call.name)
  }

  ghost predicate FrameInvariant(f: Frame) {
    match f.call
    case Get(_) => true
    case Erase(_) => !f.phase.Building? && !f.phase.Checking?
    case Region => f.phase != Building(false) && !f.phase.Checking?
  }

  // acquired_count counts the calls between acquire_cache_lock and release_cache_lock.
  ghost predicate CountInvariant(proc: Proc) {
    && (proc.frames == [] ==> proc.count == 0)
    && (proc.frames != [] ==> proc.count == |proc.frames| - 1 + One(Counted(proc.Top().phase)))
    && (InTransit(proc) ==> proc.count == 0)
    && (proc.env <==> proc.count > 0)
  }

  ghost predicate FileInvariant(files: set<Name>, f: Frame) {
    f.call.Get? ==>
      && (f.phase == Building(false) ==> f.call.name !in files)
      && (f.phase == Building(true) || f.phase.Leaving? || f.phase.Dropping? ==> f.call.name in files)
  }

  ghost predicate ProcInvariant(s: State, p: Process) {
    var proc := s.P(p);
    && FramesInvariant(proc.frames)
    && CountInvariant(proc)
    && (s.owner == Some(p) <==> proc.count > 0 || InTransit(proc))
    && (forall k | 0 <= k < |proc.frames| :: FileInvariant(s.files, proc.frames[k]))
  }

  // Names that some process is creating but has not made yet
  function Pending(s: State): set<Name> {
    if s.owner.Some? then s.P(s.owner.value).Unwritten() else {}
  }

  function One(b: bool): nat {
    if b then 1 else 0
  }

  // Every start of a creator is accounted for.
  ghost predicate Balanced(files: set<Name>, s: State, n: Name) {
    s.started[n] + One(n in files) == s.lost[n] + s.erased[n] + One(n in s.files) + One(n in Pending(s))
  }

  ghost predicate Invariant(files: set<Name>, s: State) {
    && (forall p :: ProcInvariant(s, p))
    && (forall n :: Balanced(files, s, n))
  }

  lemma OutsideIsShallow(s: State, p: Process)
    requires ProcInvariant(s, p) && s.owner != Some(p)
    ensures var proc := s.P(p);
      && proc.count == 0
      && (proc.frames == [] || (|proc.frames| == 1 && (proc.Top().phase.Checking? || proc.Top().phase.Acquiring?)))
      && proc.Unwritten() == {}
  {
  }

  // What one event may do to the shared state: the file lock is used as a mutex, and only its
  // owner touches files.
  lemma OnlyOwnerTouchesFiles(s: State, e: Event)
    requires ProcInvariant(s, e.p)
    ensures Mutex.Next(s.owner, Apply(s, e).owner, e.p)
    ensures Apply(s, e).files != s.files ==> s.owner == Some(e.p)
  {
  }

  lemma OthersKeepInvariant(s: State, e: Event, q: Process)
    requires ProcInvariant(s, e.p) && ProcInvariant(s, q) && q != e.p
    ensures ProcInvariant(Apply(s, e), q)
  {
    OnlyOwnerTouchesFiles(s, e);
    assert Apply(s, e).P(q) == s.P(q);
    if s.owner != Some(q) {
      OutsideIsShallow(s, q);
    }
  }

  // Changing the files named by the innermost call does not disturb the calls below it.
  lemma BelowUndisturbed(s: State, p: Process, files: set<Name>)
    requires ProcInvariant(s, p) && s.P(p).frames != []
    requires var c := s.P(p).Top().call;
      !c.Region? && (files == s.files || files == s.files - {c.name} || files == s.files + {c.name})
    ensures forall k | 0 <= k < |s.P(p).frames| - 1 :: FileInvariant(files, s.P(p).frames[k])
  {
    var frames := s.P(p).frames;
    forall k | 0 <= k < |frames| - 1 ensures FileInvariant(files, frames[k]) {
      assert FileInvariant(s.files, frames[k]);
    }
  }

  lemma BeginKeepsInvariant(s: State, p: Process, call: Call)
    requires ProcInvariant(s, p) && CanBegin(s.P(p), call)
    ensures ProcInvariant(Apply(s, Event(p, Begin(call))), p)
  {
    var frames := s.P(p).frames;
    forall j | 0 <= j < |frames| && frames[j].call.Get? && !call.Region?
      ensures frames[j].call.name != call.name
    {
      assert frames[j].call.name in s.P(p).Creating();
    }
  }

  lemma WithTopKeepsFrames(proc: Proc, phase: Phase)
    requires proc.frames != [] && FramesInvariant(proc.frames)
    requires FrameInvariant(Frame(proc.Top().call, phase))
    ensures FramesInvariant(proc.WithTop(phase).frames)
  {
    var frames, frames' := proc.frames, proc.WithTop(phase).frames;
    assert forall k | 0 <= k < |frames| :: frames'[k].call == frames[k].call;
  }

  lemma WithTopTop(proc: Proc, phase: Phase)
    requires proc.frames != []
    ensures proc.WithTop(phase).frames != [] && proc.WithTop(phase).Top() == proc.Top().(phase := phase)
    ensures proc.WithTop(proc.Top().phase) == proc
  {
    assert proc.WithTop(proc.Top().phase).frames == proc.frames;
  }

  // Advancing ends the innermost call or moves it to another phase, ...
  lemma AdvanceMoves(s: State, p: Process) returns (phase: Phase)
    requires s.P(p).frames != []
    ensures var proc, proc' := s.P(p), Advanced(s, p).P(p);
      proc'.frames == proc.Pop().frames || proc'.frames == proc.WithTop(phase).frames
  {
    var proc := s.P(p);
    WithTopTop(proc, Checking);
    match proc.Top().phase
    case Checking => phase := Acquiring;
    case Acquiring =>
      phase := if proc.count != 0 then Locked else if Mutex.CanAcquire(s.owner) then Taken else Acquiring;
    case Taken => phase := Locked;
    case Locked =>
      var call := proc.Top().call;
      phase := if call.Region? then Building(true)
               else if call.Get? && call.name !in s.files then Building(false)
               else Leaving;
    case Building(written) => phase := if written then Leaving else Building(false);
    case Leaving => phase := Dropping;
    case Dropping => phase := Dropping;
  }

  lemma AdvanceShape(s: State, p: Process)
    requires s.P(p).frames != []
    ensures var proc, proc' := s.P(p), Advanced(s, p).P(p);
      || proc'.frames == proc.Pop().frames
      || (proc'.frames != [] && proc'.frames == proc.WithTop(proc'.Top().phase).frames)
  {
    var phase := AdvanceMoves(s, p);
    WithTopTop(s.P(p), phase);
    hide Advanced;
  }

  // ... and enters a creator exactly if the file is missing under the lock.
  lemma AdvanceToBuilding(s: State, p: Process)
    requires s.P(p).frames != []
    ensures var proc, proc' := s.P(p), Advanced(s, p).P(p);
      proc'.frames != [] && proc'.frames == proc.WithTop(proc'.Top().phase).frames ==>
        (proc.Top().call.Get? && proc'.Top().phase == Building(false) <==>
         proc.Top().call.Get? &&
         (proc.Top().phase == Building(false) || (proc.Top().phase == Locked && proc.Top().call.name !in s.files)))
    ensures Advanced(s, p).P(p).frames == s.P(p).Pop().frames ==>
              !s.P(p).Top().phase.Building? && !s.P(p).Top().phase.Locked?
  {
    assert |s.P(p).WithTop(Locked).frames| == |s.P(p).frames|;
  }

  lemma AdvanceKeepsFrames(s: State, p: Process)
    requires ProcInvariant(s, p) && s.P(p).frames != []
    ensures FramesInvariant(Advanced(s, p).P(p).frames)
  {
    var proc, proc' := s.P(p), Advanced(s, p).P(p);
    assert FrameInvariant(proc.Top());
    if proc'.frames != proc.Pop().frames {
      WithTopKeepsFrames(proc, proc'.Top().phase);
    }
  }

  // Only the innermost call's name comes or goes.
  lemma AdvanceChangesTop(s: State, p: Process)
    requires ProcInvariant(s, p) && s.P(p).frames != []
    ensures var s', top := Advanced(s, p), s.P(p).Top();
      && (s'.files == s.files || (!top.call.Region? && s'.files == s.files - {top.call.name}))
      && (|s'.P(p).frames| == |s.P(p).frames| ==> FileInvariant(s'.files, s'.P(p).Top()))
  {
    assert FrameInvariant(s.P(p).Top()) && FileInvariant(s.files, s.P(p).Top());
  }

  lemma AdvanceKeepsFiles(s: State, p: Process)
    requires ProcInvariant(s, p) && s.P(p).frames != []
    ensures var s' := Advanced(s, p);
      forall k | 0 <= k < |s'.P(p).frames| :: FileInvariant(s'.files, s'.P(p).frames[k])
  {
    var proc, s' := s.P(p), Advanced(s, p);
    var frames' := s'.P(p).frames;
    AdvanceChangesTop(s, p);
    AdvanceShape(s, p);
    hide Advanced;
    if !proc.Top().call.Region? {
      BelowUndisturbed(s, p, s'.files);
    }
    assert forall k | 0 <= k < |frames'| && k < |proc.frames| - 1 :: frames'[k] == proc.frames[k];
  }

  lemma AdvanceKeepsCount(s: State, p: Process)
    requires ProcInvariant(s, p) && s.P(p).frames != []
    ensures var s' := Advanced(s, p);
      && CountInvariant(s'.P(p))
      && (!InTransit(s'.P(p)) ==> (s'.P(p).count > 0 <==> s'.owner == Some(p)))
      && (InTransit(s'.P(p)) ==> s'.owner == Some(p))
  {
    var proc, proc' := s.P(p), Advanced(s, p).P(p);
    assert proc'.frames != [] ==> |proc'.frames| == |proc.frames| || proc'.Top().phase.Building?;
    assert FrameInvariant(proc.Top());
  }

  lemma AdvanceKeepsInvariant(s: State, p: Process)
    requires ProcInvariant(s, p) && s.P(p).frames != []
    ensures ProcInvariant(Advanced(s, p), p)
  {
    AdvanceKeepsFrames(s, p);
    AdvanceKeepsFiles(s, p);
    AdvanceKeepsCount(s, p);
    hide Advanced;
  }

  lemma WriteKeepsInvariant(s: State, p: Process)
    requires ProcInvariant(s, p)
    ensures ProcInvariant(Apply(s, Event(p, Write)), p)
  {
    var proc := s.P(p);
    if proc.frames != [] && proc.Top().call.Get? && proc.Top().phase.Building? {
      BelowUndisturbed(s, p, s.files + {proc.Top().call.name});
    }
  }

  lemma ActorKeepsInvariant(s: State, e: Event)
    requires ProcInvariant(s, e.p)
    ensures ProcInvariant(Apply(s, e), e.p)
  {
    match e.act
    case Begin(call) =>
      if CanBegin(s.P(e.p), call) {
        BeginKeepsInvariant(s, e.p, call);
      }
    case Advance =>
      if s.P(e.p).frames != [] {
        AdvanceKeepsInvariant(s, e.p);
      }
    case Write => WriteKeepsInvariant(s, e.p);
    case Crash =>
  }

  predicate TopUnwritten(proc: Proc) {
    proc.frames != [] && proc.Top().call.Get? && proc.Top().phase == Building(false)
  }

  lemma UnwrittenSplit(proc: Proc, n: Name)
    requires proc.frames != [] && FramesInvariant(proc.frames)
    ensures n in proc.Unwritten() <==> n in proc.Pop().Unwritten() || (TopUnwritten(proc) && n == proc.Top().call.name)
    ensures !proc.Top().call.Region? ==> proc.Top().call.name !in proc.Pop().Unwritten()
  {
    var below := proc.Pop().frames;
    assert forall k | 0 <= k < |below| :: below[k] == proc.frames[k];
    if n in proc.Unwritten() {
      var k :| 0 <= k < |proc.frames| && proc.frames[k].call == Get(n) && proc.frames[k].phase == Building(false);
      assert k < |below| ==> below[k].call == Get(n);
    }
  }

  lemma WithTopUnwritten(proc: Proc, phase: Phase, n: Name)
    requires proc.frames != [] && FramesInvariant(proc.frames)
    requires FrameInvariant(Frame(proc.Top().call, phase))
    ensures n in proc.WithTop(phase).Unwritten() <==>
            || n in proc.Pop().Unwritten()
            || (proc.Top().call.Get? && phase == Building(false) && n == proc.Top().call.name)
  {
    WithTopKeepsFrames(proc, phase);
    UnwrittenSplit(proc.WithTop(phase), n);
    assert proc.WithTop(phase).Pop().frames == proc.Pop().frames;
  }

  // Advancing adds to the unwritten names exactly a creator that is started.
  lemma AdvancedUnwritten(s: State, p: Process, n: Name)
    requires ProcInvariant(s, p) && s.P(p).frames != []
    ensures var proc := s.P(p);
      n in Advanced(s, p).P(p).Unwritten() <==>
        n in proc.Unwritten() || (proc.Top() == Frame(Get(n), Locked) && n !in s.files)
  {
    var proc, proc' := s.P(p), Advanced(s, p).P(p);
    AdvanceShape(s, p);
    AdvanceToBuilding(s, p);
    AdvanceKeepsFrames(s, p);
    hide Advanced;
    UnwrittenSplit(proc, n);
    if proc'.frames == proc.Pop().frames {
      assert proc'.Unwritten() == proc.Pop().Unwritten();
    } else {
      assert proc'.Top().call == proc.Top().call;
      assert FrameInvariant(proc'.Top());
      WithTopUnwritten(proc, proc'.Top().phase, n);
      assert proc'.Unwritten() == proc.WithTop(proc'.Top().phase).Unwritten();
    }
  }

  // What advancing does to the files and to the history
  lemma AdvanceAccounts(s: State, p: Process, n: Name)
    requires s.P(p).frames != []
    ensures var s', top := Advanced(s, p), s.P(p).Top();
      && s'.lost == s.lost
      && s'.started[n] == s.started[n] + One(top == Frame(Get(n), Locked) && n !in s.files)
      && s'.erased[n] == s.erased[n] + One(top == Frame(Erase(n), Locked) && n in s.files)
      && (n in s'.files <==> n in s.files && top != Frame(Erase(n), Locked))
      && (s'.owner == s.owner || (s.owner == None && s'.owner == Some(p) && top.phase.Acquiring?) ||
          (s'.owner == None && top.phase.Dropping?))
      && (forall q | q != p :: s'.P(q) == s.P(q))
  {
  }

  lemma AdvanceKeepsBalance(files: set<Name>, s: State, p: Process, n: Name)
    requires ProcInvariant(s, p) && s.P(p).frames != [] && Balanced(files, s, n)
    ensures Balanced(files, Advanced(s, p), n)
  {
    var proc := s.P(p);
    AdvancedUnwritten(s, p, n);
    AdvanceAccounts(s, p, n);
    UnwrittenSplit(proc, n);
    hide Advanced;
    if s.owner != Some(p) {
      OutsideIsShallow(s, p);
    } else {
      assert n in Pending(s) <==> n in proc.Unwritten();
      OwnerTopOrBelow(s, p, n);
    }
  }

  // An owner that is about to give the lock back has nothing below it.
  lemma OwnerTopOrBelow(s: State, p: Process, n: Name)
    requires ProcInvariant(s, p) && s.P(p).frames != []
    ensures s.P(p).Top().phase.Dropping? ==> s.P(p).Unwritten() == {}
  {
    assert s.P(p).Top().phase.Dropping? ==> |s.P(p).frames| == 1;
  }

  lemma CrashKeepsBalance(files: set<Name>, s: State, p: Process, n: Name)
    requires ProcInvariant(s, p) && Balanced(files, s, n)
    ensures Balanced(files, Crashed(s, p), n)
  {
    if s.owner != Some(p) {
      OutsideIsShallow(s, p);
    }
  }

  lemma WriteKeepsBalance(files: set<Name>, s: State, p: Process, n: Name)
    requires ProcInvariant(s, p) && Balanced(files, s, n)
    ensures Balanced(files, Apply(s, Event(p, Write)), n)
  {
    var proc := s.P(p);
    if proc.frames != [] && proc.Top().call.Get? && proc.Top().phase.Building? {
      UnwrittenSplit(proc, n);
      WithTopUnwritten(proc, Building(true), n);
      assert FileInvariant(s.files, proc.Top());
    }
  }

  lemma BeginKeepsBalance(files: set<Name>, s: State, p: Process, call: Call, n: Name)
    requires ProcInvariant(s, p) && Balanced(files, s, n)
    ensures Balanced(files, Apply(s, Event(p, Begin(call))), n)
  {
    if CanBegin(s.P(p), call) {
      var s' := Apply(s, Event(p, Begin(call)));
      BeginKeepsInvariant(s, p, call);
      UnwrittenSplit(s'.P(p), n);
      BeginAddsFrame(s, p, call);
      hide Apply, CanBegin, FramesInvariant;
      assert s'.P(p).Unwritten() == s.P(p).Unwritten();
      assert s.owner.Some? && s.owner.value != p ==> s'.P(s.owner.value) == s.P(s.owner.value);
    }
  }

  lemma BeginAddsFrame(s: State, p: Process, call: Call)
    requires CanBegin(s.P(p), call)
    ensures var s' := Apply(s, Event(p, Begin(call)));
      && s' == s.(procs := s'.procs) && (forall q | q != p :: s'.P(q) == s.P(q))
      && s'.P(p).frames != [] && s'.P(p).Pop().frames == s.P(p).frames && !TopUnwritten(s'.P(p))
      && s'.P(p).Unwritten() == s.P(p).Unwritten()
  {
    var s' := Apply(s, Event(p, Begin(call)));
    var frames, frames' := s.P(p).frames, s'.P(p).frames;
    assert forall k | 0 <= k < |frames| :: frames'[k] == frames[k];
  }

  lemma ApplyKeepsBalance(files: set<Name>, s: State, e: Event, n: Name)
    requires ProcInvariant(s, e.p) && Balanced(files, s, n)
    ensures Balanced(files, Apply(s, e), n)
  {
    match e.act
    case Begin(call) => BeginKeepsBalance(files, s, e.p, call, n);
    case Advance =>
      if s.P(e.p).frames != [] {
        AdvanceKeepsBalance(files, s, e.p, n);
      }
    case Write => WriteKeepsBalance(files, s, e.p, n);
    case Crash => CrashKeepsBalance(files, s, e.p, n);
  }

  lemma {:induction false} RunKeepsInvariant(files: set<Name>, events: seq<Event>)
    ensures Invariant(files, Run(files, events))
  {
    if events == [] {
      assert forall p :: ProcInvariant(Start(files), p);
    } else {
      var before, e := Run(files, events[..|events| - 1]), events[|events| - 1];
      RunKeepsInvariant(files, events[..|events| - 1]);
      forall p ensures ProcInvariant(Apply(before, e), p) {
        if p == e.p {
          ActorKeepsInvariant(before, e);
        } else {
          OthersKeepInvariant(before, e, p);
        }
      }
      forall n ensures Balanced(files, Apply(before, e), n) {
        ApplyKeepsBalance(files, before, e, n);
      }
    }
  }

  /** On every run each start of a creator either died before making its file, made a file that
      was later erased, made the file that is there now, or is still running; and the names
      that existed at the start count as made once. */
  lemma StartsAreAccountedFor(files: set<Name>, events: seq<Event>, n: Name)
    ensures var s := Run(files, events);
      s.started[n] + One(n in files) == s.lost[n] + s.erased[n] + One(n in s.files) + One(n in Pending(s))
  {
    RunKeepsInvariant(files, events);
    assert Balanced(files, Run(files, events), n);
  }

  // No process dies and nothing is erased.
  ghost predicate Undisturbed(events: seq<Event>) {
    forall e | e in events :: !e.act.Crash? && (e.act.Begin? ==> !e.act.call.Erase?)
  }

  lemma OthersUntouched(s: State, e: Event, q: Process)
    ensures q != e.p ==> Apply(s, e).P(q) == s.P(q)
  {
  }

  ghost predicate NoErase(proc: Proc) {
    forall k | 0 <= k < |proc.frames| :: !proc.frames[k].call.Erase?
  }

  lemma NothingLostInStep(s: State, e: Event)
    requires NoErase(s.P(e.p)) && !e.act.Crash? && (e.act.Begin? ==> !e.act.call.Erase?)
    ensures var s' := Apply(s, e);
      && s'.lost == s.lost && s'.erased == s.erased && s.files <= s'.files
      && NoErase(s'.P(e.p))
  {
    match e.act
    case Begin(_) =>
    case Advance =>
      if s.P(e.p).frames != [] {
        NothingLostInAdvance(s, e.p);
      }
    case Write =>
    case Crash =>
  }

  lemma NothingLostInAdvance(s: State, p: Process)
    requires s.P(p).frames != [] && NoErase(s.P(p))
    ensures var s' := Advanced(s, p);
      && s'.lost == s.lost && s'.erased == s.erased && s.files <= s'.files
      && NoErase(s'.P(p))
  {
    assert !s.P(p).Top().call.Erase?;
  }

  lemma {:induction false} NothingLost(files: set<Name>, events: seq<Event>)
    requires Undisturbed(events)
    ensures Run(files, events).lost == multiset{} && Run(files, events).erased == multiset{}
    ensures files <= Run(files, events).files
    ensures forall p :: NoErase(Run(files, events).P(p))
  {
    if events != [] {
      var before, e := events[..|events| - 1], events[|events| - 1];
      assert forall d | d in before :: d in events;
      assert e in events;
      NothingLost(files, before);
      var s := Run(files, before);
      NothingLostInStep(s, e);
      assert Run(files, events) == Apply(s, e);
      hide Run, Apply;
      forall p ensures NoErase(Apply(s, e).P(p)) {
        OthersUntouched(s, e, p);
        assert NoErase(s.P(p));
      }
    }
  }

  /** Create once: if no process dies and nothing is erased, the creator of a name starts at most
      once in the whole run, and never if the file was there at the start. */
  lemma CreateOnce(files: set<Name>, events: seq<Event>, n: Name)
    requires Undisturbed(events)
    ensures Run(files, events).started[n] <= 1
    ensures n in files ==> Run(files, events).started[n] == 0
  {
    NothingLost(files, events);
    StartsAreAccountedFor(files, events, n);
    RunKeepsInvariant(files, events);
    PendingNotInFiles(files, Run(files, events), n);
  }

  lemma PendingNotInFiles(files: set<Name>, s: State, n: Name)
    requires Invariant(files, s)
    ensures n in Pending(s) ==> n !in s.files
  {
    if n in Pending(s) {
      assert ProcInvariant(s, s.owner.value);
    }
  }

  lemma CreatingOwns(s: State, p: Process)
    requires ProcInvariant(s, p) && s.P(p).Creating() != {}
    ensures s.owner == Some(p) && s.P(p).count > 0
  {
    var proc := s.P(p);
    var n :| n in proc.Creating();
    var k :| 0 <= k < |proc.frames| && proc.frames[k].call == Get(n) && proc.frames[k].phase.Building?;
    assert k == |proc.frames| - 1 || proc.count > 0;
  }

  /** Two creators never run in different processes at the same time, and a process running one
      owns the file lock and has a positive acquired_count. */
  lemma CreatorsExclusive(files: set<Name>, events: seq<Event>, p: Process, q: Process)
    requires Run(files, events).P(p).Creating() != {} && Run(files, events).P(q).Creating() != {}
    ensures p == q && Run(files, events).owner == Some(p) && Run(files, events).P(p).count > 0
  {
    RunKeepsInvariant(files, events);
    var s := Run(files, events);
    assert ProcInvariant(s, p) && ProcInvariant(s, q);
    CreatingOwns(s, p);
    CreatingOwns(s, q);
  }

  /** acquired_count is positive, and the environment marker set, exactly when the process owns
      the file lock, except inside acquire_cache_lock and release_cache_lock. */
  lemma CountIffOwner(files: set<Name>, events: seq<Event>, p: Process)
    ensures var s := Run(files, events);
      && s.P(p).count >= 0
      && (s.P(p).env <==> s.P(p).count > 0)
      && (!InTransit(s.P(p)) ==> (s.P(p).count > 0 <==> s.owner == Some(p)))
      && (InTransit(s.P(p)) ==> s.P(p).count == 0 && s.owner == Some(p))
  {
    RunKeepsInvariant(files, events);
    assert ProcInvariant(Run(files, events), p);
  }

  // Event e makes process e.p return from a get of n.
  predicate Returns(s: State, e: Event, n: Name) {
    && e.act.Advance? && s.P(e.p).frames != [] && s.P(e.p).Top().call == Get(n)
    && Apply(s, e).P(e.p).frames == s.P(e.p).Pop().frames
  }

  lemma PoppedGetIsPresent(s: State, p: Process, n: Name)
    requires s.P(p).frames != [] && s.P(p).Top().call == Get(n) && FileInvariant(s.files, s.P(p).Top())
    requires Advanced(s, p).P(p).frames == s.P(p).Pop().frames
    ensures n in Advanced(s, p).files
  {
    AdvanceToBuilding(s, p);
    assert |s.P(p).Pop().frames| == |s.P(p).frames| - 1;
  }

  /** Every get that returns does so with the file present. */
  lemma GetReturnsPresent(files: set<Name>, events: seq<Event>, e: Event, n: Name)
    requires Returns(Run(files, events), e, n)
    ensures n in Apply(Run(files, events), e).files
  {
    RunKeepsInvariant(files, events);
    var s := Run(files, events);
    hide Run, Advanced;
    assert FileInvariant(s.files, s.P(e.p).Top()) by {
      TopFileInvariant(s, e.p);
    }
    PoppedGetIsPresent(s, e.p, n);
  }

  lemma TopFileInvariant(s: State, p: Process)
    requires ProcInvariant(s, p) && s.P(p).frames != []
    ensures FileInvariant(s.files, s.P(p).Top())
  {
    hide FramesInvariant, CountInvariant, FileInvariant;
  }

  /** The cache lock of one process: acquired_count and the environment marker over a lock
      object, kept in step by every nesting of calls. */
  class CacheLock {
    const cachelock: ReentrantLock.BaseFileLock
    var acquiredCount: int
    var env: bool

    ghost predicate Valid()
      reads this, cachelock
    {
      && acquiredCount >= 0
      && (env <==> acquiredCount > 0)
      && cachelock.fields == ReentrantLock.Fields(One(acquiredCount > 0), acquiredCount > 0)
    }

    constructor ()
      ensures Valid() && acquiredCount == 0 && fresh(cachelock)
    {
      cachelock := new ReentrantLock.BaseFileLock();
      acquiredCount, env := 0, false;
    }

    // first: polls of the acquire with a ten minute timeout; then: polls of the one without,
    // which ends only when the file lock is granted.
    method Acquire(first: seq<bool>, then_: seq<bool>)
      requires Valid() && first != [] && true in then_
      modifies this, cachelock
      ensures Valid() && acquiredCount == old(acquiredCount) + 1
    {
      if acquiredCount == 0 {
        var ok := cachelock.Acquire(first);
        if !ok {
          ok := cachelock.Acquire(then_);
        }
        env := true;
      }
      acquiredCount := acquiredCount + 1;
    }

    // Calling it more often than Acquire trips an assertion in the source.
    method Release()
      requires Valid() && acquiredCount > 0
      modifies this, cachelock
      ensures Valid() && acquiredCount == old(acquiredCount) - 1
      ensures cachelock.fields.locked <==> acquiredCount > 0
    {
      acquiredCount := acquiredCount - 1;
      if acquiredCount == 0 {
        env := false;
        cachelock.Release();
      }
    }
  }
}
