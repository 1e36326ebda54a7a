/** get_cached_file of tools/emscripten.py: a cache of generated files with one lock per file
    and a pruner under a lock of its own, run by any number of processes at once.  Locks are
    known only through their Mutex specification; a process may crash between any two steps. */
module CachedFile {
  import opened Wrappers
  import Mutex
  import opened Sorting

  type Process = Mutex.Agent
  type Key = string
  type Content = string

  // What every caller of one cache agrees on; without has_warnings nothing warns.
  datatype Config = Config(gen: Key -> Content, warns: Content -> bool, limit: nat)

  datatype File = File(content: Content, mtime: int)

  datatype LockId = KeyLock(k: Key) | PruneLock

  // A directory entry as the pruner sees it
  datatype Entry = Entry(k: Key, mtime: int)

  datatype PC =
    | Done(k: Key, c: Content)  // returned c
    | WantKey(k: Key)
    | HaveKey(k: Key)
    | Generated(k: Key, c: Content)
    | Writing(k: Key, c: Content)    // the file is open and truncated
    | HaveContent(k: Key, c: Content)
    | Counting(k: Key, c: Content)
    | WantPrune(k: Key, c: Content)
    | Listing(k: Key, c: Content)
    | Pruning(k: Key, c: Content, listed: seq<Entry>, todo: seq<Entry>)
    | Deleting(k: Key, c: Content, listed: seq<Entry>, todo: seq<Entry>)
    | Deleted(k: Key, c: Content, listed: seq<Entry>, todo: seq<Entry>)

  datatype State = State(files: map<Key, File>, locks: map<LockId, Process>, pcs: map<Process, PC>) {
    function Owner(l: LockId): Option<Process> {
      if l in locks then Some(locks[l]) else None
    }

    function At(p: Process, pc: PC): State {
      this.(pcs := pcs[p := pc])
    }

    function Take(l: LockId, p: Process): State {
      this.(locks := locks[l := p])
    }

    function Give(l: LockId): State {
      this.(locks := locks - {l})
    }

    function Put(k: Key, f: File): State {
      this.(files := files[k := f])
    }
  }

  // Call: a process that is not inside the function enters it.  Step: it takes its next step;
  // now is the file time of a write, and order the order in which a listing shows the files.
  // Crash: it dies, and the system gives back its locks; of a file it was writing the first
  // characters are there.
  datatype Event =
    | Call(p: Process, k: Key)
    | Step(p: Process, now: int, order: seq<Key>)
    | Crash(p: Process, written: nat)

  predicate ByTime(a: Entry, b: Entry) {
    a.mtime <= b.mtime
  }

  // files[:-cache_limit] of the list sorted by time; note that [:-0] is empty.
  function Doomed(listed: seq<Entry>, limit: nat): seq<Entry> {
    var sorted := Sort(ByTime, listed);
    if limit == 0 || |sorted| <= limit then [] else sorted[..|sorted| - limit]
  }

  ghost predicate Enumerates(order: seq<Key>, keys: set<Key>) {
    && (forall i, j | 0 <= i < j < |order| :: order[i] != order[j])
    && (forall k :: k in order <==> k in keys)
  }

  function Listed(files: map<Key, File>, order: seq<Key>): seq<Entry>
    requires forall k | k in order :: k in files
  {
    seq(|order|, i requires 0 <= i < |order| => Entry(order[i], files[order[i]].mtime))
  }

  // The steps under the file's own lock
  function FileStep(cfg: Config, s: State, p: Process, now: int): State
    requires p in s.pcs
  {
    match s.pcs[p]
    case WantKey(k) =>
      if Mutex.CanAcquire(s.Owner(KeyLock(k))) then s.Take(KeyLock(k), p).At(p, HaveKey(k)) else s
    case HaveKey(k) =>
      if k in s.files then s.At(p, HaveContent(k, s.files[k].content)) else s.At(p, Generated(k, cfg.gen(k)))
    case Generated(k, c) =>
      if cfg.warns(c) then s.At(p, HaveContent(k, c)) else s.Put(k, File("", now)).At(p, Writing(k, c))
    case Writing(k, c) => s.Put(k, File(c, now)).At(p, HaveContent(k, c))
    case HaveContent(k, c) => s.Give(KeyLock(k)).At(p, Counting(k, c))
    case _ => s
  }

  // The steps of a prune
  ghost function PruneStep(cfg: Config, s: State, p: Process, order: seq<Key>): State
    requires p in s.pcs
  {
    match s.pcs[p]
    case Counting(k, c) => s.At(p, if |s.files| > cfg.limit then WantPrune(k, c) else Done(k, c))
    case WantPrune(k, c) =>
      if Mutex.CanAcquire(s.Owner(PruneLock)) then s.Take(PruneLock, p).At(p, Listing(k, c)) else s
    case Listing(k, c) =>
      if Enumerates(order, s.files.Keys)
      then s.At(p, Pruning(k, c, Listed(s.files, order), Doomed(Listed(s.files, order), cfg.limit)))
      else s
    case Pruning(k, c, listed, todo) =>
      if todo == [] then s.Give(PruneLock).At(p, Done(k, c))
      else if Mutex.CanAcquire(s.Owner(KeyLock(todo[0].k)))
      then s.Take(KeyLock(todo[0].k), p).At(p, Deleting(k, c, listed, todo))
      else s
    case Deleting(k, c, listed, todo) =>
      if todo == [] then s
      else s.(files := s.files - {todo[0].k}).At(p, Deleted(k, c, listed, todo))
    case Deleted(k, c, listed, todo) =>
      if todo == [] then s
      else s.Give(KeyLock(todo[0].k)).At(p, Pruning(k, c, listed, todo[1..]))
    case _ => s
  }

  predicate InFileSteps(pc: PC) {
    pc.WantKey? || pc.HaveKey? || pc.Generated? || pc.Writing? || pc.HaveContent?
  }

  function FirstOf(c: Content, written: nat): Content {
    if written < |c| then c[..written] else c
  }

  function Crashed(s: State, p: Process, written: nat): State {
    var locks := map l | l in s.locks && s.locks[l] != p :: s.locks[l];
    var files :=
      if p in s.pcs && s.pcs[p].Writing? && s.pcs[p].k in s.files
      then s.files[s.pcs[p].k := File(FirstOf(s.pcs[p].c, written), s.files[s.pcs[p].k].mtime)]
      else s.files;
    State(files, locks, s.pcs - {p})
  }

  ghost function Apply(cfg: Config, s: State, e: Event): State {
    match e
    case Crash(p, written) => Crashed(s, p, written)
    case Call(p, k) => if p !in s.pcs || s.pcs[p].Done? then s.At(p, WantKey(k)) else s
    case Step(p, now, order) =>
      if p !in s.pcs then s
      else if InFileSteps(s.pcs[p]) then FileStep(cfg, s, p, now)
      else PruneStep(cfg, s, p, order)
  }

  // A cache as earlier runs left it
  function Start(files: map<Key, File>): State {
    State(files, map[], map[])
  }

  ghost function Run(cfg: Config, s: State, events: seq<Event>): State {
    if events == [] then s else Apply(cfg, Run(cfg, s, events[..|events| - 1]), events[|events| - 1])
  }

  // Whether a process holds lock l, by where it is
  predicate Holds(pc: PC, l: LockId) {
    match pc
    case Done(_, _) => false
    case WantKey(_) => false
    case HaveKey(k) => l == KeyLock(k)
    case Generated(k, _) => l == KeyLock(k)
    case Writing(k, _) => l == KeyLock(k)
    case HaveContent(k, _) => l == KeyLock(k)
    case Counting(_, _) => false
    case WantPrune(_, _) => false
    case Listing(_, _) => l == PruneLock
    case Pruning(_, _, _, _) => l == PruneLock
    case Deleting(_, _, _, todo) => l == PruneLock || (todo != [] && l == KeyLock(todo[0].k))
    case Deleted(_, _, _, todo) => l == PruneLock || (todo != [] && l == KeyLock(todo[0].k))
  }

  predicate HasContent(pc: PC) {
    !pc.WantKey? && !pc.HaveKey?
  }

  predicate InPrune(pc: PC) {
    pc.Pruning? || pc.Deleting? || pc.Deleted?
  }

  ghost predicate ContentInvariant(cfg: Config, s: State, pc: PC) {
    && (HasContent(pc) ==> pc.c == cfg.gen(pc.k))
    && (pc.Generated? ==> pc.k !in s.files)
    && (pc.Writing? ==> pc.k in s.files && !cfg.warns(pc.c))
  }

  ghost predicate PruneInvariant(cfg: Config, pc: PC) {
    && (InPrune(pc) ==> IsSuffix(pc.todo, Doomed(pc.listed, cfg.limit)))
    && (pc.Deleting? || pc.Deleted? ==> pc.todo != [])
  }

  predicate IsSuffix<T(==)>(t: seq<T>, s: seq<T>) {
    |t| <= |s| && t == s[|s| - |t|..]
  }

  // A file is what the generator makes, unless its writer is at work.
  ghost predicate FileInvariant(cfg: Config, s: State, k: Key) {
    k in s.files ==> IsGenerated(cfg, k, s.files[k]) || BeingWritten(s, k, cfg.gen(k))
  }

  predicate IsGenerated(cfg: Config, k: Key, f: File) {
    f.content == cfg.gen(k) && !cfg.warns(cfg.gen(k))
  }

  predicate BeingWritten(s: State, k: Key, c: Content) {
    KeyLock(k) in s.locks && s.locks[KeyLock(k)] in s.pcs && s.pcs[s.locks[KeyLock(k)]] == Writing(k, c)
  }

  predicate Owns(s: State, p: Process, l: LockId) {
    s.Owner(l) == Some(p)
  }

  predicate HoldsAt(s: State, p: Process, l: LockId) {
    p in s.pcs && Holds(s.pcs[p], l)
  }

  // The lock table agrees with where the processes are.
  ghost predicate LocksInvariant(s: State) {
    forall p, l :: Owns(s, p, l) <==> HoldsAt(s, p, l)
  }

  // What holds of every run
  ghost predicate LocksAndPrunes(cfg: Config, s: State) {
    LocksInvariant(s) && forall p | p in s.pcs :: PruneInvariant(cfg, s.pcs[p])
  }

  // What holds as long as no write is torn
  ghost predicate DataInvariant(cfg: Config, s: State) {
    && (forall p | p in s.pcs :: ContentInvariant(cfg, s, s.pcs[p]))
    && (forall k :: FileInvariant(cfg, s, k))
  }

  // A process dies before all of a file's text is written.
  predicate Torn(s: State, e: Event) {
    e.Crash? && e.p in s.pcs && s.pcs[e.p].Writing? && e.written < |s.pcs[e.p].c|
  }

  // One lock, one step: used as a mutex, and held as the process's new place says
  ghost predicate LockStep(s: State, s': State, p: Process, l: LockId) {
    Mutex.Next(s.Owner(l), s'.Owner(l), p) && (Owns(s', p, l) <==> HoldsAt(s', p, l))
  }

  // What a step of p may do to the locks: p takes free ones and gives back its own.
  ghost predicate LocksStep(s: State, s': State, p: Process) {
    && (forall l :: LockStep(s, s', p, l))
    && (forall q | q != p :: q in s'.pcs <==> q in s.pcs)
    && (forall q | q != p && q in s.pcs :: s'.pcs[q] == s.pcs[q])
  }

  lemma LocksStepKeepsInvariant(s: State, s': State, p: Process)
    requires LocksInvariant(s) && LocksStep(s, s', p)
    ensures LocksInvariant(s')
  {
    forall q, l ensures Owns(s', q, l) <==> HoldsAt(s', q, l) {
      assert LockStep(s, s', p, l);
      assert Owns(s, q, l) <==> HoldsAt(s, q, l);
      assert q != p ==> (HoldsAt(s', q, l) <==> HoldsAt(s, q, l));
    }
  }

  lemma FileStepUsesMutex(cfg: Config, s: State, p: Process, now: int, l: LockId)
    requires p in s.pcs && InFileSteps(s.pcs[p]) && (Owns(s, p, l) <==> HoldsAt(s, p, l))
    ensures LockStep(s, FileStep(cfg, s, p, now), p, l)
  {
  }

  lemma PruneStartUsesMutex(cfg: Config, s: State, p: Process, order: seq<Key>, l: LockId)
    requires p in s.pcs && !InFileSteps(s.pcs[p]) && !InPrune(s.pcs[p]) && (Owns(s, p, l) <==> HoldsAt(s, p, l))
    ensures LockStep(s, PruneStep(cfg, s, p, order), p, l)
  {
    hide Doomed, Listed, Enumerates;
  }

  lemma PruneStepUsesMutex(cfg: Config, s: State, p: Process, order: seq<Key>, l: LockId)
    requires p in s.pcs && InPrune(s.pcs[p]) && (Owns(s, p, l) <==> HoldsAt(s, p, l))
    requires s.pcs[p].todo == [] ==> s.pcs[p].Pruning?
    ensures LockStep(s, PruneStep(cfg, s, p, order), p, l)
  {
    hide Doomed, Listed, Enumerates;
  }

  lemma StepUsesMutex(cfg: Config, s: State, e: Event, l: LockId)
    requires Owns(s, e.p, l) <==> HoldsAt(s, e.p, l)
    requires e.p in s.pcs ==> PruneInvariant(cfg, s.pcs[e.p])
    ensures LockStep(s, Apply(cfg, s, e), e.p, l)
  {
    if e.Crash? {
      hide FileStep, PruneStep;
    } else if e.Step? && e.p in s.pcs {
      if InFileSteps(s.pcs[e.p]) {
        FileStepUsesMutex(cfg, s, e.p, e.now, l);
      } else if InPrune(s.pcs[e.p]) {
        PruneStepUsesMutex(cfg, s, e.p, e.order, l);
      } else {
        PruneStartUsesMutex(cfg, s, e.p, e.order, l);
      }
      hide FileStep, PruneStep, LockStep;
    }
  }

  /** Every step uses every lock as a mutex. */
  lemma StepUsesMutexes(cfg: Config, s: State, e: Event)
    requires LocksInvariant(s)
    requires e.p in s.pcs ==> PruneInvariant(cfg, s.pcs[e.p])
    ensures LocksStep(s, Apply(cfg, s, e), e.p)
  {
    forall l ensures LockStep(s, Apply(cfg, s, e), e.p, l) {
      assert Owns(s, e.p, l) <==> HoldsAt(s, e.p, l);
      StepUsesMutex(cfg, s, e, l);
    }
    OthersStay(cfg, s, e);
    hide Apply, LockStep;
  }

  lemma FileStepMoves(cfg: Config, s: State, p: Process, now: int)
    requires p in s.pcs
    ensures var t := FileStep(cfg, s, p, now); p in t.pcs && t.pcs == s.pcs[p := t.pcs[p]]
  {
    assert s.pcs[p := s.pcs[p]] == s.pcs;
    var t := FileStep(cfg, s, p, now);
    assert t.pcs == s.pcs[p := t.pcs[p]];
  }

  lemma PruneStepMoves(cfg: Config, s: State, p: Process, order: seq<Key>)
    requires p in s.pcs
    ensures var t := PruneStep(cfg, s, p, order); p in t.pcs && t.pcs == s.pcs[p := t.pcs[p]]
  {
    hide Doomed, Listed, Enumerates;
    assert s.pcs[p := s.pcs[p]] == s.pcs;
    var t := PruneStep(cfg, s, p, order);
    assert t.pcs == s.pcs[p := t.pcs[p]];
  }

  lemma OthersStay(cfg: Config, s: State, e: Event)
    ensures forall q | q != e.p :: q in Apply(cfg, s, e).pcs <==> q in s.pcs
    ensures forall q | q != e.p && q in s.pcs :: Apply(cfg, s, e).pcs[q] == s.pcs[q]
  {
    hide FileStep, PruneStep;
    if e.Step? && e.p in s.pcs {
      FileStepMoves(cfg, s, e.p, e.now);
      PruneStepMoves(cfg, s, e.p, e.order);
    }
  }

  predicate SameFile(s: State, s': State, k: Key) {
    (k in s.files <==> k in s'.files) && (k in s.files ==> s.files[k] == s'.files[k])
  }

  lemma FilesChangeUnderLock(cfg: Config, s: State, e: Event, k: Key)
    ensures SameFile(s, Apply(cfg, s, e), k) || HoldsAt(s, e.p, KeyLock(k))
  {
    hide Doomed, Listed, Enumerates;
  }

  lemma TailIsSuffix<T>(t: seq<T>, s: seq<T>)
    requires IsSuffix(t, s) && t != []
    ensures IsSuffix(t[1..], s)
  {
  }

  lemma WholeIsSuffix<T>(s: seq<T>)
    ensures IsSuffix(s, s)
  {
  }

  lemma FileStepKeepsContent(cfg: Config, s: State, p: Process, now: int)
    requires p in s.pcs && InFileSteps(s.pcs[p])
    requires ContentInvariant(cfg, s, s.pcs[p]) && FileInvariant(cfg, s, s.pcs[p].k)
    requires Owns(s, p, KeyLock(s.pcs[p].k)) <==> HoldsAt(s, p, KeyLock(s.pcs[p].k))
    ensures var s' := FileStep(cfg, s, p, now); p in s'.pcs && ContentInvariant(cfg, s', s'.pcs[p])
  {
  }

  // A prune keeps the content that the function will return.
  predicate SameContent(pc: PC, pc': PC) {
    pc'.k == pc.k && !InFileSteps(pc') && !InFileSteps(pc) && pc'.c == pc.c
  }

  lemma PruneStepKeepsContent(cfg: Config, s: State, p: Process, order: seq<Key>)
    requires p in s.pcs && !InFileSteps(s.pcs[p])
    ensures var s' := PruneStep(cfg, s, p, order); p in s'.pcs && SameContent(s.pcs[p], s'.pcs[p])
  {
    hide Doomed, Listed, Enumerates, SameContent, Mutex.CanAcquire;
    var s', pc := PruneStep(cfg, s, p, order), s.pcs[p];
    SameContentCases(pc);
    assert s'.pcs == s.pcs || (exists pc' :: SameContent(pc, pc') && s'.pcs == s.pcs[p := pc']);
  }

  lemma SameContentCases(pc: PC)
    requires !InFileSteps(pc)
    ensures SameContent(pc, pc) && SameContent(pc, Done(pc.k, pc.c)) && SameContent(pc, WantPrune(pc.k, pc.c))
    ensures SameContent(pc, Listing(pc.k, pc.c))
    ensures forall listed, todo ::
              && SameContent(pc, Pruning(pc.k, pc.c, listed, todo))
              && SameContent(pc, Deleting(pc.k, pc.c, listed, todo))
              && SameContent(pc, Deleted(pc.k, pc.c, listed, todo))
  {
  }

  lemma ActorKeepsContentInvariant(cfg: Config, s: State, e: Event)
    requires e.p in s.pcs ==> ContentInvariant(cfg, s, s.pcs[e.p]) && FileInvariant(cfg, s, s.pcs[e.p].k)
    requires e.p in s.pcs ==> (Owns(s, e.p, KeyLock(s.pcs[e.p].k)) <==> HoldsAt(s, e.p, KeyLock(s.pcs[e.p].k)))
    ensures var s' := Apply(cfg, s, e); e.p in s'.pcs ==> ContentInvariant(cfg, s', s'.pcs[e.p])
  {
    hide FileStep, PruneStep, FileInvariant, Holds;
    if e.Step? && e.p in s.pcs {
      if InFileSteps(s.pcs[e.p]) {
        FileStepKeepsContent(cfg, s, e.p, e.now);
      } else {
        PruneStepKeepsContent(cfg, s, e.p, e.order);
      }
    }
  }

  lemma DeletedKeepsPrune(cfg: Config, s: State, p: Process, order: seq<Key>)
    requires p in s.pcs && s.pcs[p].Deleted? && PruneInvariant(cfg, s.pcs[p])
    ensures var s' := PruneStep(cfg, s, p, order); p in s'.pcs && PruneInvariant(cfg, s'.pcs[p])
  {
    hide Doomed, Listed, IsSuffix, Enumerates;
    TailIsSuffix(s.pcs[p].todo, Doomed(s.pcs[p].listed, cfg.limit));
  }

  lemma WaitingKeepsPrune(cfg: Config, s: State, p: Process, order: seq<Key>)
    requires p in s.pcs && (s.pcs[p].Pruning? || s.pcs[p].Deleting?) && PruneInvariant(cfg, s.pcs[p])
    ensures var s' := PruneStep(cfg, s, p, order); p in s'.pcs && PruneInvariant(cfg, s'.pcs[p])
  {
    hide Doomed, Listed, IsSuffix, Enumerates, Mutex.CanAcquire;
  }

  lemma StartKeepsPrune(cfg: Config, s: State, p: Process, order: seq<Key>)
    requires p in s.pcs && !InPrune(s.pcs[p]) && !s.pcs[p].Listing? && PruneInvariant(cfg, s.pcs[p])
    ensures var s' := PruneStep(cfg, s, p, order); p in s'.pcs && PruneInvariant(cfg, s'.pcs[p])
  {
    hide Doomed, Listed, IsSuffix, Enumerates, Mutex.CanAcquire;
  }

  lemma PruneStepKeepsPrune(cfg: Config, s: State, p: Process, order: seq<Key>)
    requires p in s.pcs && PruneInvariant(cfg, s.pcs[p])
    ensures var s' := PruneStep(cfg, s, p, order); p in s'.pcs && PruneInvariant(cfg, s'.pcs[p])
  {
    hide PruneStep, PruneInvariant;
    if s.pcs[p].Deleted? {
      DeletedKeepsPrune(cfg, s, p, order);
    } else if s.pcs[p].Listing? {
      ListingKeepsPrune(cfg, s, p, order);
    } else if InPrune(s.pcs[p]) {
      WaitingKeepsPrune(cfg, s, p, order);
    } else {
      StartKeepsPrune(cfg, s, p, order);
    }
  }

  lemma ListingKeepsPrune(cfg: Config, s: State, p: Process, order: seq<Key>)
    requires p in s.pcs && s.pcs[p].Listing?
    ensures var s' := PruneStep(cfg, s, p, order); p in s'.pcs && PruneInvariant(cfg, s'.pcs[p])
  {
    hide Doomed, Listed, IsSuffix;
    if Enumerates(order, s.files.Keys) {
      Enumerated(order, s.files.Keys);
      WholeIsSuffix(Doomed(Listed(s.files, order), cfg.limit));
    }
  }

  lemma Enumerated(order: seq<Key>, keys: set<Key>)
    requires Enumerates(order, keys)
    ensures forall k | k in order :: k in keys
  {
  }

  lemma FileStepKeepsPrune(cfg: Config, s: State, p: Process, now: int)
    requires p in s.pcs && PruneInvariant(cfg, s.pcs[p])
    ensures var s' := FileStep(cfg, s, p, now); p in s'.pcs && PruneInvariant(cfg, s'.pcs[p])
  {
    hide Doomed, IsSuffix;
  }

  lemma ActorKeepsPruneInvariant(cfg: Config, s: State, e: Event)
    requires e.p in s.pcs ==> PruneInvariant(cfg, s.pcs[e.p])
    ensures var s' := Apply(cfg, s, e); e.p in s'.pcs ==> PruneInvariant(cfg, s'.pcs[e.p])
  {
    hide FileStep, PruneStep, Doomed, IsSuffix;
    if e.Step? && e.p in s.pcs {
      if InFileSteps(s.pcs[e.p]) {
        FileStepKeepsPrune(cfg, s, e.p, e.now);
      } else {
        PruneStepKeepsPrune(cfg, s, e.p, e.order);
      }
    }
  }

  lemma OtherKeepsContentInvariant(cfg: Config, s: State, e: Event, q: Process)
    requires LocksInvariant(s) && q in s.pcs && q != e.p && ContentInvariant(cfg, s, s.pcs[q])
    ensures var s' := Apply(cfg, s, e); q in s'.pcs && ContentInvariant(cfg, s', s'.pcs[q])
  {
    var k := s.pcs[q].k;
    FilesChangeUnderLock(cfg, s, e, k);
    OthersStay(cfg, s, e);
    hide Apply, Doomed;
    assert Owns(s, q, KeyLock(k)) <==> HoldsAt(s, q, KeyLock(k));
    assert Owns(s, e.p, KeyLock(k)) <==> HoldsAt(s, e.p, KeyLock(k));
  }

  lemma OtherKeepsFileInvariant(cfg: Config, s: State, e: Event, k: Key)
    requires LocksInvariant(s) && LocksInvariant(Apply(cfg, s, e)) && FileInvariant(cfg, s, k)
    requires !HoldsAt(s, e.p, KeyLock(k))
    ensures FileInvariant(cfg, Apply(cfg, s, e), k)
  {
    var s' := Apply(cfg, s, e);
    FilesChangeUnderLock(cfg, s, e, k);
    OthersStay(cfg, s, e);
    hide Apply, IsGenerated;
    assert Owns(s, e.p, KeyLock(k)) <==> HoldsAt(s, e.p, KeyLock(k));
    if KeyLock(k) in s.locks {
      var q := s.locks[KeyLock(k)];
      assert Owns(s, q, KeyLock(k)) <==> HoldsAt(s, q, KeyLock(k));
      assert Owns(s', q, KeyLock(k)) <==> HoldsAt(s', q, KeyLock(k));
    }
  }

  // The file whose lock the acting process holds
  lemma FileStepKeepsFile(cfg: Config, s: State, p: Process, now: int, k: Key)
    requires p in s.pcs && InFileSteps(s.pcs[p]) && Owns(s, p, KeyLock(k)) && HoldsAt(s, p, KeyLock(k))
    requires ContentInvariant(cfg, s, s.pcs[p]) && FileInvariant(cfg, s, k)
    ensures FileInvariant(cfg, FileStep(cfg, s, p, now), k)
  {
  }

  lemma PruneStepKeepsFile(cfg: Config, s: State, p: Process, order: seq<Key>, k: Key)
    requires p in s.pcs && !InFileSteps(s.pcs[p]) && Owns(s, p, KeyLock(k)) && FileInvariant(cfg, s, k)
    ensures FileInvariant(cfg, PruneStep(cfg, s, p, order), k)
  {
    hide Doomed, Listed, Enumerates, IsGenerated;
  }

  lemma CrashKeepsFile(cfg: Config, s: State, e: Event, k: Key)
    requires e.Crash? && e.p in s.pcs && Owns(s, e.p, KeyLock(k)) && HoldsAt(s, e.p, KeyLock(k))
    requires ContentInvariant(cfg, s, s.pcs[e.p]) && FileInvariant(cfg, s, k) && !Torn(s, e)
    ensures FileInvariant(cfg, Crashed(s, e.p, e.written), k)
  {
  }

  lemma ActorKeepsFileInvariant(cfg: Config, s: State, e: Event, k: Key)
    requires LocksInvariant(s) && FileInvariant(cfg, s, k) && HoldsAt(s, e.p, KeyLock(k))
    requires ContentInvariant(cfg, s, s.pcs[e.p]) && !Torn(s, e)
    ensures FileInvariant(cfg, Apply(cfg, s, e), k)
  {
    assert Owns(s, e.p, KeyLock(k)) <==> HoldsAt(s, e.p, KeyLock(k));
    hide FileStep, PruneStep, Crashed, FileInvariant;
    if e.Crash? {
      CrashKeepsFile(cfg, s, e, k);
    } else if e.Step? && InFileSteps(s.pcs[e.p]) {
      FileStepKeepsFile(cfg, s, e.p, e.now, k);
    } else if e.Step? {
      PruneStepKeepsFile(cfg, s, e.p, e.order, k);
    } else {
      CallKeepsFile(cfg, s, e, k);
    }
  }

  lemma CallKeepsFile(cfg: Config, s: State, e: Event, k: Key)
    requires e.Call? && HoldsAt(s, e.p, KeyLock(k)) && FileInvariant(cfg, s, k)
    ensures FileInvariant(cfg, Apply(cfg, s, e), k)
  {
  }

  lemma StepKeepsLocksAndPrunes(cfg: Config, s: State, e: Event)
    requires LocksAndPrunes(cfg, s)
    ensures LocksAndPrunes(cfg, Apply(cfg, s, e))
  {
    var s' := Apply(cfg, s, e);
    StepUsesMutexes(cfg, s, e);
    LocksStepKeepsInvariant(s, s', e.p);
    ActorKeepsPruneInvariant(cfg, s, e);
    OthersStay(cfg, s, e);
    hide Apply;
  }

  lemma StepKeepsData(cfg: Config, s: State, e: Event)
    requires LocksAndPrunes(cfg, s) && DataInvariant(cfg, s) && !Torn(s, e)
    ensures DataInvariant(cfg, Apply(cfg, s, e))
  {
    var s' := Apply(cfg, s, e);
    StepKeepsLocksAndPrunes(cfg, s, e);
    hide Apply, ContentInvariant, FileInvariant, Torn, PruneInvariant;
    forall p | p in s'.pcs ensures ContentInvariant(cfg, s', s'.pcs[p]) {
      OthersStay(cfg, s, e);
      if p == e.p {
        if p in s.pcs {
          assert Owns(s, p, KeyLock(s.pcs[p].k)) <==> HoldsAt(s, p, KeyLock(s.pcs[p].k));
          assert FileInvariant(cfg, s, s.pcs[p].k);
        }
        ActorKeepsContentInvariant(cfg, s, e);
      } else {
        OtherKeepsContentInvariant(cfg, s, e, p);
      }
    }
    forall k ensures FileInvariant(cfg, s', k) {
      assert FileInvariant(cfg, s, k);
      if HoldsAt(s, e.p, KeyLock(k)) {
        ActorKeepsFileInvariant(cfg, s, e, k);
      } else {
        OtherKeepsFileInvariant(cfg, s, e, k);
      }
    }
  }

  lemma {:induction false} RunKeepsLocksAndPrunes(cfg: Config, s: State, events: seq<Event>)
    requires LocksAndPrunes(cfg, s)
    ensures LocksAndPrunes(cfg, Run(cfg, s, events))
  {
    hide LocksAndPrunes, Apply;
    if events != [] {
      RunKeepsLocksAndPrunes(cfg, s, events[..|events| - 1]);
      StepKeepsLocksAndPrunes(cfg, Run(cfg, s, events[..|events| - 1]), events[|events| - 1]);
    }
  }

  ghost predicate NoTornWrite(cfg: Config, s: State, events: seq<Event>) {
    forall k | 0 <= k < |events| :: !Torn(Run(cfg, s, events[..k]), events[k])
  }

  lemma {:induction false} RunKeepsData(cfg: Config, s: State, events: seq<Event>)
    requires LocksAndPrunes(cfg, s) && DataInvariant(cfg, s) && NoTornWrite(cfg, s, events)
    ensures DataInvariant(cfg, Run(cfg, s, events))
  {
    hide LocksAndPrunes, DataInvariant, Apply, Torn;
    if events != [] {
      var front := events[..|events| - 1];
      forall k | 0 <= k < |front| ensures !Torn(Run(cfg, s, front[..k]), front[k]) {
        assert front[..k] == events[..k] && front[k] == events[k];
      }
      RunKeepsData(cfg, s, front);
      RunKeepsLocksAndPrunes(cfg, s, front);
      StepKeepsData(cfg, Run(cfg, s, front), events[|events| - 1]);
    }
  }

  // A cache in which every file is what the generator makes
  predicate GoodFiles(cfg: Config, files: map<Key, File>) {
    forall k | k in files :: IsGenerated(cfg, k, files[k])
  }

  lemma StartIsInvariant(cfg: Config, files: map<Key, File>)
    ensures LocksAndPrunes(cfg, Start(files))
    ensures GoodFiles(cfg, files) ==> DataInvariant(cfg, Start(files))
  {
  }

  // Everything that a process has got for its key is what the generator makes for it.
  predicate ContentRight(cfg: Config, s: State) {
    forall p | p in s.pcs && HasContent(s.pcs[p]) :: s.pcs[p].c == cfg.gen(s.pcs[p].k)
  }

  /** Whatever getters and pruners do, starting from a good cache and with crashes anywhere but in
      the middle of a write, every call that returns gives what the generator makes for its key, and
      a test that finds the file under its lock finds it complete; content that warns is never left
      in the cache. */
  lemma CallsReturnGenerated(cfg: Config, files: map<Key, File>, events: seq<Event>, p: Process, k: Key)
    requires GoodFiles(cfg, files) && NoTornWrite(cfg, Start(files), events)
    ensures var s := Run(cfg, Start(files), events);
      && ContentRight(cfg, s)
      && (p in s.pcs && s.pcs[p] == HaveKey(k) && k in s.files ==> s.files[k].content == cfg.gen(k))
      && (k in s.files ==> !cfg.warns(cfg.gen(k)))
  {
    StartIsInvariant(cfg, files);
    RunKeepsData(cfg, Start(files), events);
    RunKeepsLocksAndPrunes(cfg, Start(files), events);
    var s := Run(cfg, Start(files), events);
    hide Run;
    assert FileInvariant(cfg, s, k);
    if p in s.pcs && s.pcs[p] == HaveKey(k) {
      assert Owns(s, p, KeyLock(k)) <==> HoldsAt(s, p, KeyLock(k));
    }
    if BeingWritten(s, k, cfg.gen(k)) {
      assert ContentInvariant(cfg, s, s.pcs[s.locks[KeyLock(k)]]);
    }
  }

  // Process p calls the function for k and takes its first two steps.
  function FirstSteps(p: Process, k: Key): seq<Event> {
    [Call(p, k)] + [Step(p, 0, [])] + [Step(p, 0, [])]
  }

  lemma RunNext(cfg: Config, s: State, events: seq<Event>, e: Event)
    ensures Run(cfg, s, events + [e]) == Apply(cfg, Run(cfg, s, events), e)
  {
    hide Apply;
    assert (events + [e])[..|events|] == events;
  }

  lemma RunFirstSteps(cfg: Config, s: State, p: Process, k: Key)
    ensures Run(cfg, s, FirstSteps(p, k)) ==
            Apply(cfg, Apply(cfg, Apply(cfg, s, Call(p, k)), Step(p, 0, [])), Step(p, 0, []))
  {
    hide Apply, Run;
    RunNext(cfg, s, [], Call(p, k));
    assert [] + [Call(p, k)] == [Call(p, k)];
    RunNext(cfg, s, [Call(p, k)], Step(p, 0, []));
    RunNext(cfg, s, [Call(p, k)] + [Step(p, 0, [])], Step(p, 0, []));
    assert Run(cfg, s, []) == s by {
      NoRun(cfg, s);
    }
  }

  lemma NoRun(cfg: Config, s: State)
    ensures Run(cfg, s, []) == s
  {
  }

  // The next caller takes what a torn write left for the whole file.
  lemma TornFileIsTaken(cfg: Config, s: State, e: Event)
    requires LocksAndPrunes(cfg, s) && DataInvariant(cfg, s) && Torn(s, e)
    ensures var k, c := s.pcs[e.p].k, s.pcs[e.p].c;
      var t := Run(cfg, Apply(cfg, s, e), FirstSteps(e.p, k));
      e.p in t.pcs && t.pcs[e.p] == HaveContent(k, c[..e.written]) && c == cfg.gen(k)
  {
    var k, t := s.pcs[e.p].k, Apply(cfg, s, e);
    assert Owns(s, e.p, KeyLock(k)) <==> HoldsAt(s, e.p, KeyLock(k));
    assert ContentInvariant(cfg, s, s.pcs[e.p]);
    assert e.p !in t.pcs && t.Owner(KeyLock(k)) == None;
    assert k in t.files && t.files[k].content == cfg.gen(k)[..e.written];
    RunFirstSteps(cfg, t, e.p, k);
    hide PruneStep;
  }

  /** A crash does harm exactly when it tears a write: whatever happens after it, with no further
      torn write, everyone gets what the generator makes if and only if the crash did not come
      between the truncation of a file and the end of its text. */
  lemma CrashIsHarmlessIff(cfg: Config, files: map<Key, File>, events: seq<Event>, e: Event)
    requires GoodFiles(cfg, files) && NoTornWrite(cfg, Start(files), events) && e.Crash?
    ensures var s := Run(cfg, Start(files), events);
      (forall more | NoTornWrite(cfg, Apply(cfg, s, e), more) :: ContentRight(cfg, Run(cfg, Apply(cfg, s, e), more)))
      <==> !Torn(s, e)
  {
    StartIsInvariant(cfg, files);
    RunKeepsData(cfg, Start(files), events);
    RunKeepsLocksAndPrunes(cfg, Start(files), events);
    hide Run, Apply, LocksAndPrunes, DataInvariant, NoTornWrite, ContentRight, Torn;
    var s := Run(cfg, Start(files), events);
    var t := Apply(cfg, s, e);
    if Torn(s, e) {
      var more := TornMeansWrong(cfg, s, e);
    } else {
      StepKeepsLocksAndPrunes(cfg, s, e);
      StepKeepsData(cfg, s, e);
      forall more | NoTornWrite(cfg, t, more) ensures ContentRight(cfg, Run(cfg, t, more)) {
        RunKeepsData(cfg, t, more);
        DataIsRight(cfg, Run(cfg, t, more));
      }
    }
  }

  lemma TornMeansWrong(cfg: Config, s: State, e: Event) returns (more: seq<Event>)
    requires LocksAndPrunes(cfg, s) && DataInvariant(cfg, s) && Torn(s, e)
    ensures NoTornWrite(cfg, Apply(cfg, s, e), more) && !ContentRight(cfg, Run(cfg, Apply(cfg, s, e), more))
  {
    hide Apply, LocksAndPrunes, DataInvariant, Run;
    more := FirstSteps(e.p, s.pcs[e.p].k);
    NoCrashNoTorn(cfg, Apply(cfg, s, e), more);
    TornFileIsTaken(cfg, s, e);
    assert HasContent(Run(cfg, Apply(cfg, s, e), more).pcs[e.p]);
  }

  lemma DataIsRight(cfg: Config, s: State)
    requires DataInvariant(cfg, s)
    ensures ContentRight(cfg, s)
  {
    assert forall p | p in s.pcs :: ContentInvariant(cfg, s, s.pcs[p]);
  }

  lemma NoCrashNoTorn(cfg: Config, s: State, events: seq<Event>)
    requires forall k | 0 <= k < |events| :: !events[k].Crash?
    ensures NoTornWrite(cfg, s, events)
  {
  }

  // Process p waits for a lock that process q owns.
  predicate WaitsFor(s: State, p: Process, q: Process) {
    p in s.pcs &&
    match s.pcs[p]
    case WantKey(k) => Owns(s, q, KeyLock(k))
    case WantPrune(_, _) => Owns(s, q, PruneLock)
    case Pruning(_, _, _, todo) => todo != [] && Owns(s, q, KeyLock(todo[0].k))
    case _ => false
  }

  // How deep in the lock order a process is when it waits: the prune lock comes before keys.
  function Depth(pc: PC): nat {
    match pc
    case WantPrune(_, _) => 0
    case WantKey(_) => 1
    case Pruning(_, _, _, _) => 1
    case _ => 2
  }

  /** Waiting climbs a fixed order of locks, so it never forms a cycle. */
  lemma WaitingClimbs(cfg: Config, files: map<Key, File>, events: seq<Event>, p: Process, q: Process)
    requires WaitsFor(Run(cfg, Start(files), events), p, q)
    ensures q in Run(cfg, Start(files), events).pcs
    ensures Depth(Run(cfg, Start(files), events).pcs[p]) < Depth(Run(cfg, Start(files), events).pcs[q])
  {
    StartIsInvariant(cfg, files);
    RunKeepsLocksAndPrunes(cfg, Start(files), events);
    var s := Run(cfg, Start(files), events);
    match s.pcs[p]
    case WantKey(k) => assert Owns(s, q, KeyLock(k)) <==> HoldsAt(s, q, KeyLock(k));
    case WantPrune(_, _) => assert Owns(s, q, PruneLock) <==> HoldsAt(s, q, PruneLock);
    case Pruning(_, _, _, todo) => assert Owns(s, q, KeyLock(todo[0].k)) <==> HoldsAt(s, q, KeyLock(todo[0].k));
  }

  ghost predicate Unfinished(s: State, p: Process) {
    p in s.pcs && !s.pcs[p].Done?
  }

  ghost predicate CanStep(cfg: Config, s: State, p: Process) {
    exists order :: Apply(cfg, s, Step(p, 0, order)).pcs != s.pcs
  }

  lemma EnumerationExists(keys: set<Key>) returns (order: seq<Key>)
    ensures Enumerates(order, keys)
  {
    order := [];
    var rest := keys;
    while rest != {}
      invariant rest <= keys && Enumerates(order, keys - rest)
    {
      var k :| k in rest;
      order, rest := order + [k], rest - {k};
    }
    assert keys - rest == keys;
  }

  lemma CanStepUnlessWaiting(cfg: Config, s: State, p: Process)
    requires Unfinished(s, p) && PruneInvariant(cfg, s.pcs[p])
    ensures CanStep(cfg, s, p) || exists q :: WaitsFor(s, p, q)
  {
    var order := EnumerationExists(s.files.Keys);
    var s' := Apply(cfg, s, Step(p, 0, order));
    if s'.pcs[p] == s.pcs[p] {
      match s.pcs[p]
      case WantKey(k) => assert WaitsFor(s, p, s.locks[KeyLock(k)]);
      case WantPrune(_, _) => assert WaitsFor(s, p, s.locks[PruneLock]);
      case Pruning(_, _, _, todo) => assert WaitsFor(s, p, s.locks[KeyLock(todo[0].k)]);
    }
  }

  /** No deadlock: an unfinished process can step, or whoever it waits for can, or whoever that
      one waits for can. */
  lemma {:induction false} SomeoneCanStep(cfg: Config, files: map<Key, File>, events: seq<Event>, p: Process)
    returns (q: Process)
    requires Unfinished(Run(cfg, Start(files), events), p)
    ensures Unfinished(Run(cfg, Start(files), events), q) && CanStep(cfg, Run(cfg, Start(files), events), q)
    decreases 2 - Depth(Run(cfg, Start(files), events).pcs[p])
  {
    StartIsInvariant(cfg, files);
    RunKeepsLocksAndPrunes(cfg, Start(files), events);
    var s := Run(cfg, Start(files), events);
    CanStepUnlessWaiting(cfg, s, p);
    if CanStep(cfg, s, p) {
      q := p;
    } else {
      var r :| WaitsFor(s, p, r);
      WaitingClimbs(cfg, files, events, p, r);
      DoneHoldsNothing(s, p, r);
      q := SomeoneCanStep(cfg, files, events, r);
    }
  }

  lemma DoneHoldsNothing(s: State, p: Process, r: Process)
    requires LocksInvariant(s) && WaitsFor(s, p, r)
    ensures Unfinished(s, r)
  {
    match s.pcs[p]
    case WantKey(k) => assert Owns(s, r, KeyLock(k)) <==> HoldsAt(s, r, KeyLock(k));
    case WantPrune(_, _) => assert Owns(s, r, PruneLock) <==> HoldsAt(s, r, PruneLock);
    case Pruning(_, _, _, todo) => assert Owns(s, r, KeyLock(todo[0].k)) <==> HoldsAt(s, r, KeyLock(todo[0].k));
  }

  // The entries a prune keeps
  function Spared(listed: seq<Entry>, limit: nat): seq<Entry> {
    Sort(ByTime, listed)[|Doomed(listed, limit)|..]
  }

  /** With a positive limit a prune spares the newest entries it listed, as many as the limit or
      all of them: nothing doomed is newer than anything spared, and together they are the list.
      With limit 0 the slice is empty and nothing is doomed. */
  lemma PruneSparesNewest(listed: seq<Entry>, limit: nat)
    ensures limit > 0 ==> |Spared(listed, limit)| == if |listed| < limit then |listed| else limit
    ensures limit == 0 ==> Doomed(listed, limit) == []
    ensures multiset(Doomed(listed, limit)) + multiset(Spared(listed, limit)) == multiset(listed)
    ensures forall d, k | d in Doomed(listed, limit) && k in Spared(listed, limit) :: d.mtime <= k.mtime
  {
    SortPermutes(ByTime, listed);
    var sorted, n := Sort(ByTime, listed), |Doomed(listed, limit)|;
    assert sorted == sorted[..n] + sorted[n..];
    assert Doomed(listed, limit) == sorted[..n];
    forall d, k | d in Doomed(listed, limit) && k in Spared(listed, limit) ensures d.mtime <= k.mtime {
      SplitIsOrdered(listed, n, d, k);
    }
  }

  lemma SplitIsOrdered(listed: seq<Entry>, n: nat, d: Entry, k: Entry)
    requires n <= |Sort(ByTime, listed)|
    requires d in Sort(ByTime, listed)[..n] && k in Sort(ByTime, listed)[n..]
    ensures d.mtime <= k.mtime
  {
    SortSorts(ByTime, listed);
    var sorted := Sort(ByTime, listed);
    var i :| 0 <= i < n && sorted[i] == d;
    var j :| 0 <= j < |sorted| - n && sorted[n..][j] == k;
    assert ByTime(sorted[i], sorted[n + j]);
  }

  /** A file disappears only in a prune that doomed it, while the pruner holds the file's own
      lock, and at least the limit of the entries that prune listed are as new. */
  lemma OnlyDoomedFilesDisappear(cfg: Config, files: map<Key, File>, events: seq<Event>, e: Event, k: Key)
    requires k in Run(cfg, Start(files), events).files && k !in Apply(cfg, Run(cfg, Start(files), events), e).files
    ensures var s := Run(cfg, Start(files), events);
      && e.p in s.pcs && s.pcs[e.p].Deleting? && Owns(s, e.p, KeyLock(k))
      && exists d ::
           && d in Doomed(s.pcs[e.p].listed, cfg.limit) && d.k == k
           && |Spared(s.pcs[e.p].listed, cfg.limit)| == cfg.limit > 0
           && forall x | x in Spared(s.pcs[e.p].listed, cfg.limit) :: d.mtime <= x.mtime
  {
    StartIsInvariant(cfg, files);
    RunKeepsLocksAndPrunes(cfg, Start(files), events);
    var s := Run(cfg, Start(files), events);
    DisappearsInDelete(cfg, s, e, k);
    var pc := s.pcs[e.p];
    assert PruneInvariant(cfg, pc);
    assert Owns(s, e.p, KeyLock(k)) <==> HoldsAt(s, e.p, KeyLock(k));
    hide Run, Apply, LocksAndPrunes, Doomed, Spared;
    SuffixHead(pc.todo, Doomed(pc.listed, cfg.limit));
    PruneSparesNewest(pc.listed, cfg.limit);
    DoomedMeansSpared(pc.listed, cfg.limit);
    assert pc.todo[0] in Doomed(pc.listed, cfg.limit) && pc.todo[0].k == k;
  }

  lemma DisappearsInDelete(cfg: Config, s: State, e: Event, k: Key)
    requires k in s.files && k !in Apply(cfg, s, e).files
    ensures e.p in s.pcs && s.pcs[e.p].Deleting? && s.pcs[e.p].todo != [] && s.pcs[e.p].todo[0].k == k
  {
    hide Doomed, Listed, Enumerates;
  }

  lemma SuffixHead<T>(t: seq<T>, s: seq<T>)
    requires IsSuffix(t, s) && t != []
    ensures t[0] in s
  {
    assert t[0] == s[|s| - |t|];
  }

  lemma DoomedMeansSpared(listed: seq<Entry>, limit: nat)
    requires Doomed(listed, limit) != []
    ensures |Spared(listed, limit)| == limit > 0
  {
    SortPermutes(ByTime, listed);
  }

  // ---- What was listed, and when ----

  ghost predicate DistinctKeys(entries: seq<Entry>) {
    forall i, j | 0 <= i < j < |entries| :: entries[i].k != entries[j].k
  }

  // The entries are those of the files: one for each, with the file's time.
  ghost predicate Lists(listed: seq<Entry>, files: map<Key, File>) {
    && DistinctKeys(listed)
    && (forall x | x in listed :: x.k in files && x.mtime == files[x.k].mtime)
    && (forall k | k in files :: Entry(k, files[k].mtime) in listed)
  }

  /** A prune begins with one entry for every file there is, with the time the file has then, and
      sets out to delete the doomed ones of these. */
  lemma ListingIsFaithful(cfg: Config, s: State, e: Event)
    requires e.p in s.pcs && s.pcs[e.p].Listing?
    requires e.p in Apply(cfg, s, e).pcs && Apply(cfg, s, e).pcs[e.p].Pruning?
    ensures var pc := Apply(cfg, s, e).pcs[e.p];
      && Lists(pc.listed, s.files) && |pc.listed| == |s.files|
      && pc.todo == Doomed(pc.listed, cfg.limit) && Apply(cfg, s, e).files == s.files
  {
    hide Doomed, FileStep;
    var listed := Apply(cfg, s, e).pcs[e.p].listed;
    assert Enumerates(e.order, s.files.Keys) && listed == Listed(s.files, e.order);
    forall k | k in s.files ensures Entry(k, s.files[k].mtime) in listed {
      assert k in e.order;
      var i :| 0 <= i < |e.order| && e.order[i] == k;
      assert listed[i] == Entry(k, s.files[k].mtime);
    }
    OneEach(listed, s.files);
  }

  function KeysOf(entries: seq<Entry>): set<Key> {
    set x | x in entries :: x.k
  }

  lemma {:induction false} DistinctKeysOf(entries: seq<Entry>)
    requires DistinctKeys(entries)
    ensures |KeysOf(entries)| == |entries|
  {
    if entries != [] {
      var front, last := entries[..|entries| - 1], entries[|entries| - 1];
      DistinctKeysOf(front);
      assert entries == front + [last];
      assert KeysOf(entries) == KeysOf(front) + {last.k};
      assert last.k !in KeysOf(front);
    }
  }

  lemma OneEach(listed: seq<Entry>, files: map<Key, File>)
    requires Lists(listed, files)
    ensures KeysOf(listed) == files.Keys && |listed| == |files|
  {
    DistinctKeysOf(listed);
    forall k | k in files ensures k in KeysOf(listed) {
      assert Entry(k, files[k].mtime) in listed;
    }
    assert KeysOf(listed) == files.Keys;
    assert |files| == |files.Keys|;
  }

  // Sorting keeps the keys distinct.
  lemma SortedKeysDistinct(listed: seq<Entry>)
    requires DistinctKeys(listed)
    ensures DistinctKeys(Sort(ByTime, listed))
  {
    var sorted := Sort(ByTime, listed);
    SortPermutes(ByTime, listed);
    hide Sort;
    SameKeys(listed, sorted);
    DistinctKeysOf(listed);
    AsManyKeys(sorted);
  }

  lemma SameKeys(a: seq<Entry>, b: seq<Entry>)
    requires multiset(a) == multiset(b)
    ensures KeysOf(a) == KeysOf(b) && |a| == |b|
  {
    assert forall x :: x in a <==> x in multiset(a);
    assert forall x :: x in b <==> x in multiset(b);
    assert |a| == |multiset(a)| && |b| == |multiset(b)|;
  }

  lemma {:induction false} FewerKeys(entries: seq<Entry>)
    ensures |KeysOf(entries)| <= |entries|
  {
    if entries != [] {
      var front, last := entries[..|entries| - 1], entries[|entries| - 1];
      FewerKeys(front);
      assert entries == front + [last];
      assert KeysOf(entries) == KeysOf(front) + {last.k};
    }
  }

  // As many keys as entries means that no key comes twice.
  lemma {:induction false} AsManyKeys(entries: seq<Entry>)
    requires |KeysOf(entries)| == |entries|
    ensures DistinctKeys(entries)
  {
    if entries != [] {
      var front, last := entries[..|entries| - 1], entries[|entries| - 1];
      FewerKeys(front);
      assert entries == front + [last];
      assert KeysOf(entries) == KeysOf(front) + {last.k};
      forall i | 0 <= i < |front| ensures front[i].k in KeysOf(front) {
        assert front[i] in front;
      }
      hide KeysOf;
      AsManyKeys(front);
      assert last.k !in KeysOf(front);
    }
  }

  // At place j of the run process p took this list of the files.
  ghost predicate ListedAt(cfg: Config, s: State, events: seq<Event>, j: nat, p: Process, listed: seq<Entry>) {
    j < |events| && events[j].p == p &&
    var before := Run(cfg, s, events[..j]);
    p in before.pcs && before.pcs[p].Listing? && Lists(listed, before.files)
  }

  lemma FileStepNoPrune(cfg: Config, s: State, p: Process, now: int)
    requires p in s.pcs && InFileSteps(s.pcs[p])
    ensures p in FileStep(cfg, s, p, now).pcs && !InPrune(FileStep(cfg, s, p, now).pcs[p])
  {
  }

  lemma PruneStepKeepsListed(cfg: Config, s: State, p: Process, order: seq<Key>)
    requires p in s.pcs && !InFileSteps(s.pcs[p])
    ensures var t := PruneStep(cfg, s, p, order);
      && p in t.pcs
      && (InPrune(t.pcs[p]) ==>
            s.pcs[p].Listing? || (InPrune(s.pcs[p]) && t.pcs[p].listed == s.pcs[p].listed))
  {
    hide Doomed, Listed, Enumerates, Mutex.CanAcquire;
  }

  lemma PruneComesFromListing(cfg: Config, s: State, e: Event, p: Process)
    requires p in Apply(cfg, s, e).pcs && InPrune(Apply(cfg, s, e).pcs[p])
    ensures p in s.pcs
    ensures (p == e.p && s.pcs[p].Listing?) ||
            (InPrune(s.pcs[p]) && s.pcs[p].listed == Apply(cfg, s, e).pcs[p].listed)
  {
    OthersStay(cfg, s, e);
    hide FileStep, PruneStep;
    if p == e.p && e.Step? && p in s.pcs {
      if InFileSteps(s.pcs[p]) {
        FileStepNoPrune(cfg, s, p, e.now);
      } else {
        PruneStepKeepsListed(cfg, s, p, e.order);
      }
    }
  }

  lemma ListingLeadsToPruning(cfg: Config, s: State, e: Event)
    requires e.p in s.pcs && s.pcs[e.p].Listing?
    requires e.p in Apply(cfg, s, e).pcs && InPrune(Apply(cfg, s, e).pcs[e.p])
    ensures Apply(cfg, s, e).pcs[e.p].Pruning?
  {
    hide Doomed, Listed, Enumerates;
  }

  // Whoever prunes has taken its list at some place of the run.
  lemma {:induction false} PrunerHasListed(cfg: Config, files: map<Key, File>, events: seq<Event>, p: Process)
    returns (j: nat)
    requires p in Run(cfg, Start(files), events).pcs && InPrune(Run(cfg, Start(files), events).pcs[p])
    ensures ListedAt(cfg, Start(files), events, j, p, Run(cfg, Start(files), events).pcs[p].listed)
  {
    hide Apply, Lists;
    var n := |events| - 1;
    var front, e := events[..n], events[n];
    var s := Run(cfg, Start(files), front);
    PruneComesFromListing(cfg, s, e, p);
    if p == e.p && s.pcs[p].Listing? {
      ListingLeadsToPruning(cfg, s, e);
      ListingIsFaithful(cfg, s, e);
      j := n;
    } else {
      j := PrunerHasListed(cfg, files, front, p);
      assert front[..j] == events[..j] && front[j] == events[j];
    }
  }

  // The other files that are at least as new as a file
  function AsNew(files: map<Key, File>, k: Key): set<Key> {
    set x | x in files && x != k && k in files && files[x].mtime >= files[k].mtime
  }

  lemma SparedAreAsNew(listed: seq<Entry>, files: map<Key, File>, limit: nat, d: Entry)
    requires Lists(listed, files) && d in Doomed(listed, limit)
    ensures d.k in files && |AsNew(files, d.k)| >= limit > 0
  {
    var spared := Spared(listed, limit);
    PruneSparesNewest(listed, limit);
    SortedKeysDistinct(listed);
    DoomedMeansSpared(listed, limit);
    assert d in multiset(Doomed(listed, limit)) && d in multiset(listed);
    SparedKeysDiffer(listed, limit, d);
    hide Doomed, Spared;
    DistinctKeysOf(spared);
    forall k | k in KeysOf(spared) ensures k in AsNew(files, d.k) {
      var x :| x in spared && x.k == k;
      assert x in multiset(spared) && x in multiset(listed);
    }
    SubsetOf(KeysOf(spared), AsNew(files, d.k));
  }

  lemma SubsetOf(a: set<Key>, b: set<Key>)
    requires a <= b
    ensures |a| <= |b|
  {
    assert |b - a| == |b| - |a|;
  }

  lemma SparedKeysDiffer(listed: seq<Entry>, limit: nat, d: Entry)
    requires d in Doomed(listed, limit)
    requires DistinctKeys(Sort(ByTime, listed))
    ensures DistinctKeys(Spared(listed, limit)) && forall x | x in Spared(listed, limit) :: x.k != d.k
  {
    hide Sort;
    var sorted, doomed, spared := Sort(ByTime, listed), Doomed(listed, limit), Spared(listed, limit);
    var n := |doomed|;
    assert doomed == sorted[..n] && spared == sorted[n..];
    hide Doomed, Spared;
    var i :| 0 <= i < n && doomed[i] == d;
    forall j | 0 <= j < |spared| ensures spared[j] == sorted[n + j] && spared[j].k != d.k {
      assert sorted[i].k != sorted[n + j].k;
    }
  }

  /** A file disappears only when, at the place of the run where its pruner listed the files, at
      least as many other files as the limit were as new as it was. */
  lemma OnlyOldFilesDisappear(cfg: Config, files: map<Key, File>, events: seq<Event>, e: Event, k: Key)
    returns (j: nat)
    requires k in Run(cfg, Start(files), events).files && k !in Apply(cfg, Run(cfg, Start(files), events), e).files
    ensures j < |events| && events[j].p == e.p
    ensures var before := Run(cfg, Start(files), events[..j]);
      && e.p in before.pcs && before.pcs[e.p].Listing?
      && k in before.files && |AsNew(before.files, k)| >= cfg.limit > 0
  {
    hide Apply, Doomed, Spared, AsNew;
    OnlyDoomedFilesDisappear(cfg, files, events, e, k);
    var s := Run(cfg, Start(files), events);
    j := PrunerHasListed(cfg, files, events, e.p);
    var listed := s.pcs[e.p].listed;
    var d :| d in Doomed(listed, cfg.limit) && d.k == k;
    SparedAreAsNew(listed, Run(cfg, Start(files), events[..j]).files, cfg.limit, d);
  }

  /** The time of a file is that of the step that opened or finished its last write; a finished
      write leaves the whole content with the time of its step. */
  lemma FileTimesAreWriteTimes(cfg: Config, s: State, e: Event, k: Key)
    requires k in Apply(cfg, s, e).files
    ensures var f := Apply(cfg, s, e).files[k];
      || (k in s.files && s.files[k].mtime == f.mtime)
      || (e.Step? && f.mtime == e.now && e.p in s.pcs && s.pcs[e.p].k == k && HoldsAt(s, e.p, KeyLock(k)))
    ensures e.Step? && e.p in s.pcs && s.pcs[e.p].Writing? && s.pcs[e.p].k == k ==>
              Apply(cfg, s, e).files[k] == File(s.pcs[e.p].c, e.now)
  {
    hide Doomed, Listed, Enumerates;
  }
}
