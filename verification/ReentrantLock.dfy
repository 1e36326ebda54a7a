/** The nested lock counter of tools/filelock.py (class BaseFileLock): one lock object shared
    by the threads of a process.  Sections under _thread_lock are single steps; reading
    is_locked outside it is a step of its own, so acquires, timeouts and releases race. */
module ReentrantLock {

  // The fields of the lock object; locked stands for _lock_file_fd being set.
  datatype Fields = Fields(counter: int, locked: bool) {
    // First section of acquire
    function Enter(): Fields {
      this.(counter := counter + 1)
    }

    // Polling section of acquire; granted is the outcome of _acquire, if it is called
    function Poll(granted: bool): Fields {
      this.(locked := locked || granted)
    }

    // The except section of acquire
    function Undo(): Fields {
      this.(counter := if counter - 1 > 0 then counter - 1 else 0)
    }

    function Release(): Fields {
      if !locked then this
      else if counter - 1 == 0 then Fields(0, false)
      else this.(counter := counter - 1)
    }
  }

  // A session is one acquire call and its release; a thread that nests has several.
  type Session = nat

  datatype Phase =
    | Polling   // counted, about to poll
    | Checking  // polled, about to read is_locked
    | Raising   // timed out or interrupted, about to undo the count
    | Inside    // acquire returned

  // What the outside world decides in a step.
  datatype Outcome =
    | Proceed(granted: bool, expired: bool)
    | Interrupt  // _acquire or anything else in the try block raises

  datatype State = State(obj: Fields, phases: map<Session, Phase>)

  datatype Event = Event(t: Session, o: Outcome)

  const START := State(Fields(0, false), map[])

  function Apply(s: State, e: Event): State {
    var State(f, ph) := s;
    if e.t !in ph then State(f.Enter(), ph[e.t := Polling])
    else
      match ph[e.t]
      case Polling =>
        if e.o.Interrupt? then State(f, ph[e.t := Raising])
        else State(f.Poll(e.o.granted), ph[e.t := Checking])
      case Checking =>
        if e.o.Interrupt? then State(f, ph[e.t := Raising])
        else if f.locked then State(f, ph[e.t := Inside])
        else if e.o.expired then State(f, ph[e.t := Raising])
        else State(f, ph[e.t := Polling])
      case Raising => State(f.Undo(), ph - {e.t})
      case Inside => State(f.Release(), ph - {e.t})
  }

  function Run(events: seq<Event>): State {
    if events == [] then START else Apply(Run(events[..|events| - 1]), events[|events| - 1])
  }

  function InPhase(s: State, p: Phase): set<Session> {
    set t | t in s.phases && s.phases[t] == p
  }

  ghost predicate Invariant(s: State) {
    && s.obj.counter == |s.phases|
    && (InPhase(s, Inside) != {} ==> s.obj.locked)
  }

  lemma RemoveShrinks(m: map<Session, Phase>, t: Session)
    requires t in m
    ensures |m - {t}| == |m| - 1
  {
    assert (m - {t}).Keys == m.Keys - {t};
    assert |m - {t}| == |(m - {t}).Keys| && |m| == |m.Keys|;
  }

  lemma OnlyOne(m: map<Session, Phase>, t: Session)
    requires t in m && |m| == 1
    ensures m.Keys == {t}
  {
    assert |m.Keys - {t}| == 0;
    assert m.Keys - {t} == {};
  }

  lemma ApplyKeepsInvariant(s: State, e: Event)
    requires Invariant(s)
    ensures Invariant(Apply(s, e))
  {
    var s' := Apply(s, e);
    if e.t in s.phases {
      RemoveShrinks(s.phases, e.t);
      if t :| t in InPhase(s', Inside) && t != e.t {
        assert t in InPhase(s, Inside);
        if |s.phases| == 1 {
          OnlyOne(s.phases, e.t);
        }
      } else if e.t in InPhase(s', Inside) {
        assert s.phases[e.t] == Checking;
      }
    } else if t :| t in InPhase(s', Inside) {
      assert t in InPhase(s, Inside);
    }
  }

  lemma {:induction false} RunKeepsInvariant(events: seq<Event>)
    ensures Invariant(Run(events))
  {
    if events != [] {
      RunKeepsInvariant(events[..|events| - 1]);
      ApplyKeepsInvariant(Run(events[..|events| - 1]), events[|events| - 1]);
    }
  }

  /** The counter is exactly the number of sessions waiting, holding, and timed out but not yet
      undone; a session that holds implies the file lock is held. */
  lemma CounterCountsSessions(events: seq<Event>)
    ensures var s := Run(events);
      && s.obj.counter == |InPhase(s, Polling)| + |InPhase(s, Checking)| + |InPhase(s, Inside)| + |InPhase(s, Raising)|
      && (InPhase(s, Inside) != {} ==> s.obj.locked)
  {
    RunKeepsInvariant(events);
    PhasesAddUp(Run(events));
  }

  lemma PhasesAddUp(s: State)
    ensures |s.phases| == |InPhase(s, Polling)| + |InPhase(s, Checking)| + |InPhase(s, Inside)| + |InPhase(s, Raising)|
  {
    var w, r := InPhase(s, Polling) + InPhase(s, Checking), InPhase(s, Inside) + InPhase(s, Raising);
    assert s.phases.Keys == w + r && w !! r;
    assert InPhase(s, Polling) !! InPhase(s, Checking) && InPhase(s, Inside) !! InPhase(s, Raising);
    hide InPhase;
    assert |s.phases| == |s.phases.Keys| == |w| + |r|;
  }

  /** A release gives the file lock back exactly when no other session is counted; in
      particular never while another session holds it. */
  lemma ReleaseDropsLockIffLast(events: seq<Event>, e: Event)
    requires e.t in InPhase(Run(events), Inside)
    ensures var s := Run(events);
      && s.obj.locked
      && (!Apply(s, e).obj.locked <==> s.phases.Keys == {e.t})
  {
    RunKeepsInvariant(events);
    var s := Run(events);
    if |s.phases| == 1 {
      OnlyOne(s.phases, e.t);
    }
  }

  /** Nothing but a release of the last session ever gives the file lock back. */
  lemma LockedUntilLastRelease(events: seq<Event>, e: Event)
    requires Run(events).obj.locked && !Apply(Run(events), e).obj.locked
    ensures e.t in InPhase(Run(events), Inside) && Run(events).phases.Keys == {e.t}
  {
    ReleaseDropsLockIffLast(events, e);
  }

  // The object keeps the file lock although nobody is counted.
  predicate Leaked(s: State) {
    s.obj.locked && s.obj.counter == 0
  }

  /** The lock leaks in exactly one way: a session that timed out undoes its count while the
      file lock is held and it is the only session counted. */
  lemma LeakIff(events: seq<Event>, e: Event)
    ensures var s := Run(events);
      Leaked(Apply(s, e)) <==> s.obj.locked && s.phases == map[e.t := Raising]
  {
    RunKeepsInvariant(events);
    var s := Run(events);
    hide Run;
    if e.t in s.phases {
      RemoveShrinks(s.phases, e.t);
      if |s.phases| == 1 {
        OnlyOne(s.phases, e.t);
        assert s.phases == map[e.t := s.phases[e.t]];
      }
    } else {
      assert |s.phases[e.t := Polling]| == |s.phases| + 1 by {
        assert s.phases[e.t := Polling].Keys == s.phases.Keys + {e.t};
      }
    }
  }

  const WAIT := Proceed(false, false)
  const EXPIRE := Proceed(false, true)
  const GRANT := Proceed(true, false)

  lemma RunNext(events: seq<Event>, e: Event)
    ensures Run(events + [e]) == Apply(Run(events), e)
  {
    assert (events + [e])[..|events|] == events;
  }

  // Session 1 times out without having polled successfully.
  lemma TimedOut()
    ensures Run([Event(1, WAIT), Event(1, WAIT), Event(1, EXPIRE)]) == State(Fields(1, false), map[1 := Raising])
  {
    var w, x := Event(1, WAIT), Event(1, EXPIRE);
    RunNext([], w);
    assert [] + [w] == [w] && [w] + [w] == [w, w] && [w, w] + [x] == [w, w, x];
    RunNext([w], w);
    RunNext([w, w], x);
  }

  /** Such a race exists: session 1 times out just before session 0 acquires and releases. */
  lemma TimeoutCanLeak()
    ensures Leaked(Run([Event(1, WAIT), Event(1, WAIT), Event(1, EXPIRE)] +
                       [Event(0, WAIT)] + [Event(0, GRANT)] + [Event(0, WAIT)] + [Event(0, WAIT)] + [Event(1, WAIT)]))
  {
    TimedOut();
    hide Run;
    var e3 := [Event(1, WAIT), Event(1, WAIT), Event(1, EXPIRE)];
    RunNext(e3, Event(0, WAIT));
    RunNext(e3 + [Event(0, WAIT)], Event(0, GRANT));
    var e5 := e3 + [Event(0, WAIT)] + [Event(0, GRANT)];
    assert Run(e5) == State(Fields(2, true), map[1 := Raising, 0 := Checking]);
    RunNext(e5, Event(0, WAIT));
    RunNext(e5 + [Event(0, WAIT)], Event(0, WAIT));
    var e7 := e5 + [Event(0, WAIT)] + [Event(0, WAIT)];
    assert Run(e7) == State(Fields(1, true), map[1 := Raising]);
    RunNext(e7, Event(1, WAIT));
  }

  ghost predicate NeverRaises(events: seq<Event>) {
    forall e | e in events :: e.o.Proceed? && !e.o.expired
  }

  /** Without timeouts and interrupts the lock is given back whenever the counter is 0. */
  lemma {:induction false} NoTimeoutNoLeak(events: seq<Event>)
    requires NeverRaises(events)
    ensures InPhase(Run(events), Raising) == {}
    ensures Run(events).obj.counter == 0 ==> !Run(events).obj.locked
  {
    if events != [] {
      var before := events[..|events| - 1];
      var e := events[|events| - 1];
      assert e in events && forall d | d in before :: d in events;
      NoTimeoutNoLeak(before);
      assert e.t !in InPhase(Run(before), Raising);
      forall t | t in InPhase(Run(events), Raising) ensures t in InPhase(Run(before), Raising) {
      }
      LeakIff(before, e);
    }
  }

  /** A leaked lock heals: the next session is let in without polling the file again, and its
      release gives the file lock back. */
  lemma LeakHeals(events: seq<Event>, t: Session)
    requires Leaked(Run(events))
    ensures var inside := Apply(Apply(Apply(Run(events), Event(t, WAIT)), Event(t, WAIT)), Event(t, WAIT));
      && inside == State(Fields(1, true), map[t := Inside])
      && Apply(inside, Event(t, WAIT)) == START
  {
    RunKeepsInvariant(events);
    assert Run(events).phases == map[];
  }

  /** What becomes of one attempt of a polling session: refused, it is where it was; granted, or with
      the lock held by another session, it gets in; refused with the timeout expired, or interrupted,
      it leaves and is counted no more. */
  lemma AttemptOutcomes(s: State, t: Session, granted: bool)
    requires t in s.phases && s.phases[t] == Polling && s.obj.counter > 0
    ensures var polled := Apply(s, Event(t, Proceed(granted, false)));
      && (!s.obj.locked && !granted ==> Apply(polled, Event(t, WAIT)) == s)
      && (s.obj.locked || granted ==>
            Apply(polled, Event(t, WAIT)) == State(Fields(s.obj.counter, true), s.phases[t := Inside]))
      && (!s.obj.locked && !granted ==>
            Apply(Apply(polled, Event(t, EXPIRE)), Event(t, WAIT)) ==
              State(Fields(s.obj.counter - 1, false), s.phases - {t}))
    ensures Apply(Apply(s, Event(t, Interrupt)), Event(t, WAIT)) ==
            State(s.obj.(counter := s.obj.counter - 1), s.phases - {t})
    ensures Apply(Apply(Apply(s, Event(t, Proceed(granted, false))), Event(t, Interrupt)), Event(t, WAIT)) ==
            State(Fields(s.obj.counter - 1, s.obj.locked || granted), s.phases - {t})
  {
    assert s.phases[t := Checking][t := Polling] == s.phases;
    assert s.phases[t := Checking][t := Inside] == s.phases[t := Inside];
    assert s.phases[t := Checking][t := Raising] - {t} == s.phases - {t};
    assert s.phases[t := Raising] - {t} == s.phases - {t};
  }

  /** The lock object itself; each method is one call made without interference. */
  class BaseFileLock {
    var fields: Fields

    constructor ()
      ensures fields == START.obj
    {
      fields := START.obj;
    }

    // The polling loop: attempts[k] is the outcome of the k-th call of _acquire, and the
    // timeout expires after the last one.
    method Acquire(attempts: seq<bool>) returns (ok: bool)
      requires fields.counter >= 0 && attempts != []
      modifies this
      ensures ok <==> old(fields.locked) || true in attempts
      ensures ok ==> fields == Fields(old(fields.counter) + 1, true)
      ensures !ok ==> fields == old(fields)
    {
      fields := fields.Enter();
      var k := 0;
      while true
        invariant 0 <= k < |attempts| && true !in attempts[..k]
        invariant fields == old(fields.Enter()) && (k > 0 ==> !fields.locked)
        decreases |attempts| - k
      {
        if !fields.locked {
          fields := fields.Poll(attempts[k]);
        }
        if fields.locked {
          return true;
        } else if k + 1 == |attempts| {
          assert attempts == attempts[..k] + [attempts[k]];
          fields := fields.Undo();
          return false;
        }
        k := k + 1;
      }
    }

    method Release()
      modifies this
      ensures old(fields.locked) ==> fields == Fields(old(fields.counter) - 1, old(fields.counter) != 1)
      ensures !old(fields.locked) ==> fields == old(fields)
    {
      if fields.locked {
        fields := fields.(counter := fields.counter - 1);
        if fields.counter == 0 {
          fields := Fields(0, false);
        }
      }
    }
  }
}
