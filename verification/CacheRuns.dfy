/** What single calls of tools/cache.py do when nobody else runs. */
module CacheRuns {
  import opened Wrappers
  import opened Cache
  import Mutex

  function Do(s: State, p: Process, act: Action): State {
    Apply(s, Event(p, act))
  }

  // Process p is outside of all calls and the file lock is free.
  predicate Quiet(s: State, p: Process) {
    s.P(p) == NEW_PROC && s.owner == None
  }

  // From the call to the lock
  function Entered(s: State, p: Process, call: Call): State {
    var s1 := Do(s, p, Begin(call));
    var s2 := if call.Get? then Do(s1, p, Advance) else s1;
    Do(Do(s2, p, Advance), p, Advance)
  }

  // From the end of the work back to the caller
  function Left(s: State, p: Process): State {
    Do(Do(s, p, Advance), p, Advance)
  }

  // The state but for the processes
  predicate Same(s: State, t: State) {
    t.files == s.files && t.started == s.started && t.erased == s.erased && t.lost == s.lost
  }

  // ---- The steps of one process, one by one ----

  function At(count: int, env: bool, call: Call, phase: Phase): Proc {
    Proc(count, env, [Frame(call, phase)])
  }

  lemma Begins(s: State, p: Process, call: Call)
    requires s.P(p) == NEW_PROC
    ensures var t := Do(s, p, Begin(call));
      Same(s, t) && t.owner == s.owner && t.P(p) == At(0, false, call, if call.Get? then Checking else Acquiring)
  {
  }

  lemma Misses(s: State, p: Process, n: Name)
    requires s.P(p) == At(0, false, Get(n), Checking) && n !in s.files
    ensures var t := Do(s, p, Advance); Same(s, t) && t.owner == s.owner && t.P(p) == At(0, false, Get(n), Acquiring)
  {
  }

  lemma Takes(s: State, p: Process, call: Call)
    requires s.P(p) == At(0, false, call, Acquiring) && s.owner == None
    ensures var t := Do(s, p, Advance); Same(s, t) && t.owner == Some(p) && t.P(p) == At(0, false, call, Taken)
  {
  }

  lemma Marks(s: State, p: Process, call: Call)
    requires s.P(p) == At(0, false, call, Taken)
    ensures var t := Do(s, p, Advance); Same(s, t) && t.owner == s.owner && t.P(p) == At(1, true, call, Locked)
  {
  }

  lemma StartsCreator(s: State, p: Process, n: Name)
    requires s.P(p) == At(1, true, Get(n), Locked) && n !in s.files
    ensures var t := Do(s, p, Advance);
      && t.P(p) == At(1, true, Get(n), Building(false)) && t.owner == s.owner
      && t.files == s.files && t.started == s.started + multiset{n}
  {
  }

  lemma Writes(s: State, p: Process, n: Name)
    requires s.P(p) == At(1, true, Get(n), Building(false))
    ensures var t := Do(s, p, Write);
      && t.P(p) == At(1, true, Get(n), Building(true)) && t.owner == s.owner
      && t.files == s.files + {n} && t.started == s.started
  {
  }

  lemma EndsBuilding(s: State, p: Process, call: Call)
    requires s.P(p) == At(1, true, call, Building(true))
    ensures var t := Do(s, p, Advance); Same(s, t) && t.owner == s.owner && t.P(p) == At(1, true, call, Leaving)
  {
  }

  lemma Erases(s: State, p: Process, n: Name)
    requires s.P(p) == At(1, true, Erase(n), Locked)
    ensures var t := Do(s, p, Advance);
      t.P(p) == At(1, true, Erase(n), Leaving) && t.files == s.files - {n} && t.started == s.started
  {
  }

  lemma EntersBody(s: State, p: Process)
    requires s.P(p) == At(1, true, Region, Locked)
    ensures var t := Do(s, p, Advance);
      Same(s, t) && t.owner == s.owner && t.P(p) == At(1, true, Region, Building(true))
  {
  }

  lemma Unmarks(s: State, p: Process, call: Call)
    requires s.P(p) == At(1, true, call, Leaving)
    ensures var t := Do(s, p, Advance); Same(s, t) && t.P(p) == At(0, false, call, Dropping)
  {
  }

  lemma Drops(s: State, p: Process, call: Call)
    requires s.P(p) == At(0, false, call, Dropping)
    ensures var t := Do(s, p, Advance); Same(s, t) && Quiet(t, p)
  {
  }

  lemma EntersAlone(s: State, p: Process, call: Call)
    requires Quiet(s, p) && (call.Get? ==> call.name !in s.files)
    ensures var t := Entered(s, p, call); Same(s, t) && t.owner == Some(p) && t.P(p) == At(1, true, call, Locked)
  {
    hide Do, At;
    Begins(s, p, call);
    var s1 := Do(s, p, Begin(call));
    var s2 := if call.Get? then Do(s1, p, Advance) else s1;
    if call.Get? {
      Misses(s1, p, call.name);
    }
    Takes(s2, p, call);
    Marks(Do(s2, p, Advance), p, call);
  }

  lemma LeavesAlone(s: State, p: Process, call: Call)
    requires s.P(p) == At(1, true, call, Leaving)
    ensures var t := Left(s, p); Same(s, t) && Quiet(t, p)
  {
    hide Do, At;
    Unmarks(s, p, call);
    Drops(Do(s, p, Advance), p, call);
  }

  // ---- Whole calls ----

  /** A get that finds the file returns at once, and takes no lock. */
  lemma GetHits(s: State, p: Process, n: Name)
    requires s.P(p) == NEW_PROC && n in s.files
    ensures var t := Do(Do(s, p, Begin(Get(n))), p, Advance);
      Same(s, t) && t.owner == s.owner && t.P(p) == NEW_PROC
  {
    var s1 := Do(s, p, Begin(Get(n)));
    assert s1.P(p) == Proc(0, false, [Frame(Get(n), Checking)]);
  }

  /** A get that finds no file, with the file lock free, takes it, starts the creator once, and when
      the creator has made its file returns, the lock given back and the file there. */
  lemma GetCreates(s: State, p: Process, n: Name)
    requires Quiet(s, p) && n !in s.files
    ensures var building := Do(Entered(s, p, Get(n)), p, Advance);
      && building.owner == Some(p) && building.P(p).Creating() == {n} && building.files == s.files
      && building.started == s.started + multiset{n}
      && var t := Left(Do(Do(building, p, Write), p, Advance), p);
         Quiet(t, p) && t.files == s.files + {n} && t.started == s.started + multiset{n}
  {
    hide Do, Entered, Left, At;
    EntersAlone(s, p, Get(n));
    var s4 := Entered(s, p, Get(n));
    StartsCreator(s4, p, n);
    var s5 := Do(s4, p, Advance);
    CreatesOnly(s5, p, n);
    Writes(s5, p, n);
    var s6 := Do(s5, p, Write);
    EndsBuilding(s6, p, Get(n));
    LeavesAlone(Do(s6, p, Advance), p, Get(n));
  }

  lemma CreatesOnly(s: State, p: Process, n: Name)
    requires s.P(p) == At(1, true, Get(n), Building(false))
    ensures s.P(p).Creating() == {n}
  {
    assert s.P(p).frames[0].phase.Building?;
  }

  /** An erase_file, with the file lock free, deletes the file if it is there and gives the lock back. */
  lemma EraseDeletes(s: State, p: Process, n: Name)
    requires Quiet(s, p)
    ensures var t := Left(Do(Entered(s, p, Erase(n)), p, Advance), p);
      Quiet(t, p) && t.files == s.files - {n} && t.started == s.started
  {
    hide Do, Entered, Left, At;
    EntersAlone(s, p, Erase(n));
    var s3 := Entered(s, p, Erase(n));
    Erases(s3, p, n);
    LeavesAlone(Do(s3, p, Advance), p, Erase(n));
  }

  /** A locked region, entered with the file lock free, holds it while its body runs, and gives it
      back. */
  lemma RegionLocks(s: State, p: Process)
    requires Quiet(s, p)
    ensures var body := Do(Entered(s, p, Region), p, Advance);
      && body.owner == Some(p) && body.P(p).count == 1 && body.P(p).frames == [Frame(Region, Building(true))]
      && var t := Left(Do(body, p, Advance), p); Quiet(t, p) && Same(s, t)
  {
    hide Do, Entered, Left;
    EntersAlone(s, p, Region);
    var s3 := Entered(s, p, Region);
    EntersBody(s3, p);
    var s4 := Do(s3, p, Advance);
    EndsBuilding(s4, p, Region);
    LeavesAlone(Do(s4, p, Advance), p, Region);
  }

  /** A call made while the process owns the file lock already only counts: it is locked in one step,
      and leaving takes the count back without giving the file lock away. */
  lemma NestedCallCounts(s: State, p: Process, call: Call)
    requires s.P(p).frames != [] && s.P(p).count > 0 && s.P(p).Top() == Frame(call, Acquiring)
    ensures var t := Do(s, p, Advance);
      t.P(p).count == s.P(p).count + 1 && t.P(p).env == s.P(p).env && t.owner == s.owner && Same(s, t) &&
      t.P(p).frames != [] && t.P(p).Top() == Frame(call, Locked)
  {
  }

  lemma NestedLeaveCounts(s: State, p: Process)
    requires s.P(p).frames != [] && s.P(p).count > 1 && s.P(p).Top().phase.Leaving?
    ensures var t := Do(s, p, Advance);
      t.P(p).count == s.P(p).count - 1 && t.P(p).env == s.P(p).env && t.owner == s.owner && Same(s, t) &&
      t.P(p).frames == s.P(p).Pop().frames
  {
  }

  /** A process that dies leaves its calls, and the file lock if it had it; the files stay. */
  lemma DyingGivesBack(s: State, p: Process)
    ensures var t := Do(s, p, Crash);
      && t.P(p) == NEW_PROC && t.files == s.files
      && t.owner == (if s.owner == Some(p) then None else s.owner)
      && forall q | q != p :: t.P(q) == s.P(q)
  {
  }
}
