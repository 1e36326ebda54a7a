/** What one call of get_cached_file does when nobody else runs: it fills the cache or takes what
    is there, and a prune leaves the newest files. */
module CachedFileRuns {
  import opened Wrappers
  import opened CachedFile
  import opened Sorting

  // n times the same event
  ghost function Again(cfg: Config, s: State, e: Event, n: nat): State {
    if n == 0 then s else Apply(cfg, Again(cfg, s, e, n - 1), e)
  }

  lemma Then(cfg: Config, s: State, e: Event, n: nat, t: State, u: State)
    requires Again(cfg, s, e, n) == t && Apply(cfg, t, e) == u
    ensures Again(cfg, s, e, n + 1) == u
  {
    hide Apply;
  }

  lemma Once(cfg: Config, s: State, e: Event)
    ensures Again(cfg, s, e, 1) == Apply(cfg, s, e)
  {
    hide Apply;
    Then(cfg, s, e, 0, s, Apply(cfg, s, e));
  }

  lemma {:induction false} ThenAgain(cfg: Config, s: State, e: Event, m: nat, n: nat)
    ensures Again(cfg, Again(cfg, s, e, m), e, n) == Again(cfg, s, e, m + n)
  {
    hide Apply;
    if n > 0 {
      ThenAgain(cfg, s, e, m, n - 1);
    }
  }

  // ---- The steps, one by one ----

  lemma Calls(cfg: Config, s: State, p: Process, k: Key)
    requires p !in s.pcs || s.pcs[p].Done?
    ensures Apply(cfg, s, Call(p, k)) == s.At(p, WantKey(k))
  {
  }

  lemma TakesKey(cfg: Config, s: State, e: Event, k: Key)
    requires e.Step? && e.p in s.pcs && s.pcs[e.p] == WantKey(k) && KeyLock(k) !in s.locks
    ensures Apply(cfg, s, e) == State(s.files, s.locks[KeyLock(k) := e.p], s.pcs[e.p := HaveKey(k)])
  {
    hide PruneStep;
  }

  lemma TestsFile(cfg: Config, s: State, e: Event, k: Key)
    requires e.Step? && e.p in s.pcs && s.pcs[e.p] == HaveKey(k)
    ensures Apply(cfg, s, e) ==
            s.At(e.p, if k in s.files then HaveContent(k, s.files[k].content) else Generated(k, cfg.gen(k)))
  {
    hide PruneStep;
  }

  lemma OpensFile(cfg: Config, s: State, e: Event, k: Key, c: Content)
    requires e.Step? && e.p in s.pcs && s.pcs[e.p] == Generated(k, c)
    ensures Apply(cfg, s, e) ==
            if cfg.warns(c) then s.At(e.p, HaveContent(k, c))
            else State(s.files[k := File("", e.now)], s.locks, s.pcs[e.p := Writing(k, c)])
  {
    hide PruneStep;
  }

  lemma WritesFile(cfg: Config, s: State, e: Event, k: Key, c: Content)
    requires e.Step? && e.p in s.pcs && s.pcs[e.p] == Writing(k, c)
    ensures Apply(cfg, s, e) == State(s.files[k := File(c, e.now)], s.locks, s.pcs[e.p := HaveContent(k, c)])
  {
    hide PruneStep;
  }

  lemma GivesKey(cfg: Config, s: State, e: Event, k: Key, c: Content)
    requires e.Step? && e.p in s.pcs && s.pcs[e.p] == HaveContent(k, c)
    ensures Apply(cfg, s, e) == State(s.files, s.locks - {KeyLock(k)}, s.pcs[e.p := Counting(k, c)])
  {
    hide PruneStep;
  }

  lemma Counts(cfg: Config, s: State, e: Event, k: Key, c: Content)
    requires e.Step? && e.p in s.pcs && s.pcs[e.p] == Counting(k, c)
    ensures Apply(cfg, s, e) == s.At(e.p, if |s.files| > cfg.limit then WantPrune(k, c) else Done(k, c))
  {
    hide FileStep;
  }

  lemma TakesPruneLock(cfg: Config, s: State, e: Event, k: Key, c: Content)
    requires e.Step? && e.p in s.pcs && s.pcs[e.p] == WantPrune(k, c) && PruneLock !in s.locks
    ensures Apply(cfg, s, e) == State(s.files, s.locks[PruneLock := e.p], s.pcs[e.p := Listing(k, c)])
  {
    hide FileStep, Doomed, Listed, Enumerates;
  }

  lemma TakesFile(cfg: Config, s: State, e: Event, pc: PC)
    requires e.Step? && e.p in s.pcs && s.pcs[e.p] == pc && pc.Pruning? && pc.todo != []
    requires KeyLock(pc.todo[0].k) !in s.locks
    ensures Apply(cfg, s, e) ==
            State(s.files, s.locks[KeyLock(pc.todo[0].k) := e.p],
                  s.pcs[e.p := Deleting(pc.k, pc.c, pc.listed, pc.todo)])
  {
    hide FileStep, Doomed, Listed, Enumerates;
  }

  lemma DeletesFile(cfg: Config, s: State, e: Event, pc: PC)
    requires e.Step? && e.p in s.pcs && s.pcs[e.p] == pc && pc.Deleting? && pc.todo != []
    ensures Apply(cfg, s, e) ==
            State(s.files - {pc.todo[0].k}, s.locks, s.pcs[e.p := Deleted(pc.k, pc.c, pc.listed, pc.todo)])
  {
    hide FileStep, Doomed, Listed, Enumerates;
  }

  lemma GivesFile(cfg: Config, s: State, e: Event, pc: PC)
    requires e.Step? && e.p in s.pcs && s.pcs[e.p] == pc && pc.Deleted? && pc.todo != []
    ensures Apply(cfg, s, e) ==
            State(s.files, s.locks - {KeyLock(pc.todo[0].k)},
                  s.pcs[e.p := Pruning(pc.k, pc.c, pc.listed, pc.todo[1..])])
  {
    hide FileStep, Doomed, Listed, Enumerates;
  }

  lemma EndsPrune(cfg: Config, s: State, e: Event, pc: PC)
    requires e.Step? && e.p in s.pcs && s.pcs[e.p] == pc && pc.Pruning? && pc.todo == []
    ensures Apply(cfg, s, e) == State(s.files, s.locks - {PruneLock}, s.pcs[e.p := Done(pc.k, pc.c)])
  {
    hide FileStep, Doomed, Listed, Enumerates;
  }

  // ---- A call alone ----

  // The files once a call for k has had its turn
  function Filled(cfg: Config, files: map<Key, File>, k: Key, now: int): map<Key, File> {
    if k in files || cfg.warns(cfg.gen(k)) then files else files[k := File(cfg.gen(k), now)]
  }

  // From the test for the file to the content
  lemma ContentAlone(cfg: Config, s: State, e: Event, k: Key) returns (n: nat)
    requires e.Step? && e.p in s.pcs && s.pcs[e.p] == HaveKey(k)
    ensures var c := if k in s.files then s.files[k].content else cfg.gen(k);
      Again(cfg, s, e, n) == State(Filled(cfg, s.files, k, e.now), s.locks, s.pcs[e.p := HaveContent(k, c)])
  {
    hide Apply;
    var c := cfg.gen(k);
    TestsFile(cfg, s, e, k);
    var t := Apply(cfg, s, e);
    Once(cfg, s, e);
    n := 1;
    if k !in s.files {
      OpensFile(cfg, t, e, k, c);
      var u := Apply(cfg, t, e);
      Then(cfg, s, e, 1, t, u);
      n := 2;
      if cfg.warns(c) {
        assert u.pcs == s.pcs[e.p := HaveContent(k, c)];
      } else {
        WritesFile(cfg, u, e, k, c);
        var v := Apply(cfg, u, e);
        Then(cfg, s, e, 2, u, v);
        n := 3;
        assert v.files == s.files[k := File(c, e.now)] && v.pcs == s.pcs[e.p := HaveContent(k, c)];
      }
    }
  }

  /** A call that runs alone while the file's lock is free takes the file's content if the file is
      there, whatever the generator would make; otherwise it generates the content, and leaves it in
      the cache unless it warns.  It gives the lock back. */
  lemma CallAlone(cfg: Config, s: State, e: Event, k: Key) returns (n: nat)
    requires e.Step? && (e.p !in s.pcs || s.pcs[e.p].Done?) && KeyLock(k) !in s.locks
    ensures var c := if k in s.files then s.files[k].content else cfg.gen(k);
      Again(cfg, Apply(cfg, s, Call(e.p, k)), e, n) ==
        State(Filled(cfg, s.files, k, e.now), s.locks, s.pcs[e.p := Counting(k, c)])
  {
    hide Apply, Filled, Again;
    var c := if k in s.files then s.files[k].content else cfg.gen(k);
    var t := Apply(cfg, s, Call(e.p, k));
    Calls(cfg, s, e.p, k);
    TakesKey(cfg, t, e, k);
    var u := Apply(cfg, t, e);
    Once(cfg, t, e);
    var m := ContentAlone(cfg, u, e, k);
    var v := Again(cfg, u, e, m);
    ThenAgain(cfg, t, e, 1, m);
    GivesKey(cfg, v, e, k, c);
    var w := Apply(cfg, v, e);
    Then(cfg, t, e, 1 + m, v, w);
    n := m + 2;
    assert w.locks == s.locks;
    assert w.pcs == s.pcs[e.p := Counting(k, c)];
  }

  // ---- A prune alone ----

  // One file of a prune goes in three steps.
  lemma OneDeletion(cfg: Config, s: State, e: Event, pc: PC)
    requires e.Step? && e.p in s.pcs && s.pcs[e.p] == pc && pc.Pruning? && pc.todo != []
    requires s.locks == map[PruneLock := e.p]
    ensures Again(cfg, s, e, 3) ==
            State(s.files - {pc.todo[0].k}, s.locks, s.pcs[e.p := Pruning(pc.k, pc.c, pc.listed, pc.todo[1..])])
  {
    hide Apply;
    TakesFile(cfg, s, e, pc);
    var t := Apply(cfg, s, e);
    DeletesFile(cfg, t, e, t.pcs[e.p]);
    var u := Apply(cfg, t, e);
    GivesFile(cfg, u, e, u.pcs[e.p]);
    var v := Apply(cfg, u, e);
    Once(cfg, s, e);
    Then(cfg, s, e, 1, t, u);
    Then(cfg, s, e, 2, u, v);
    hide Again;
    assert v.locks == s.locks && v.pcs == s.pcs[e.p := Pruning(pc.k, pc.c, pc.listed, pc.todo[1..])];
  }

  lemma KeysOfHead(todo: seq<Entry>)
    requires todo != []
    ensures KeysOf(todo) == {todo[0].k} + KeysOf(todo[1..])
  {
    assert todo == [todo[0]] + todo[1..];
  }

  lemma {:induction false} DeletionsAlone(cfg: Config, s: State, e: Event, pc: PC) returns (n: nat)
    requires e.Step? && e.p in s.pcs && s.pcs[e.p] == pc && pc.Pruning?
    requires s.locks == map[PruneLock := e.p]
    ensures Again(cfg, s, e, n) == State(s.files - KeysOf(pc.todo), map[], s.pcs[e.p := Done(pc.k, pc.c)])
    decreases |pc.todo|
  {
    hide Apply;
    if pc.todo == [] {
      n := 1;
      EndsPrune(cfg, s, e, pc);
      Once(cfg, s, e);
      assert s.locks - {PruneLock} == map[] && s.files - KeysOf([]) == s.files;
    } else {
      OneDeletion(cfg, s, e, pc);
      var t := Again(cfg, s, e, 3);
      var m := DeletionsAlone(cfg, t, e, t.pcs[e.p]);
      ThenAgain(cfg, s, e, 3, m);
      n := 3 + m;
      KeysOfHead(pc.todo);
      hide Again, KeysOf;
      assert s.files - {pc.todo[0].k} - KeysOf(pc.todo[1..]) == s.files - KeysOf(pc.todo);
      assert t.pcs[e.p := Done(pc.k, pc.c)] == s.pcs[e.p := Done(pc.k, pc.c)];
    }
  }

  // The kept files are the newest ones, and as many as the limit.
  ghost predicate KeepsNewest(files: map<Key, File>, kept: map<Key, File>, limit: nat) {
    && (forall k | k in kept :: k in files && kept[k] == files[k])
    && |kept| == limit
    && (forall x, y | x in files && x !in kept && y in kept :: files[x].mtime <= files[y].mtime)
  }

  lemma WithoutDoomed(listed: seq<Entry>, files: map<Key, File>, limit: nat)
    requires Lists(listed, files) && |files| > limit
    ensures limit == 0 ==> files - KeysOf(Doomed(listed, limit)) == files
    ensures limit > 0 ==> KeepsNewest(files, files - KeysOf(Doomed(listed, limit)), limit)
  {
    OneEach(listed, files);
    PruneSparesNewest(listed, limit);
    hide Lists;
    if limit == 0 {
      assert KeysOf([]) == {};
    } else {
      ListsDistinct(listed, files);
      SortedKeysDistinct(listed);
      var doomed, spared := Doomed(listed, limit), Spared(listed, limit);
      PartsOfList(listed, doomed, spared);
      SpareDistinct(listed, limit);
      hide Doomed, Spared;
      KeptAreNewest(listed, files, doomed, spared, limit);
    }
  }

  lemma ListsDistinct(listed: seq<Entry>, files: map<Key, File>)
    requires Lists(listed, files)
    ensures DistinctKeys(listed)
    ensures forall x | x in listed :: x.k in files && x.mtime == files[x.k].mtime
  {
  }

  lemma KeptAreNewest(listed: seq<Entry>, files: map<Key, File>, doomed: seq<Entry>, spared: seq<Entry>, limit: nat)
    requires Lists(listed, files) && |spared| == limit
    requires forall x :: x in listed <==> x in doomed || x in spared
    requires files.Keys == KeysOf(doomed) + KeysOf(spared) && KeysOf(doomed) !! KeysOf(spared)
    requires DistinctKeys(spared)
    requires forall d, x | d in doomed && x in spared :: d.mtime <= x.mtime
    ensures KeepsNewest(files, files - KeysOf(doomed), limit)
  {
    var kept := files - KeysOf(doomed);
    ListsDistinct(listed, files);
    hide Lists;
    DistinctKeysOf(spared);
    assert kept.Keys == KeysOf(spared);
    assert |kept| == |kept.Keys|;
    forall x, y | x in files && x !in kept && y in kept ensures files[x].mtime <= files[y].mtime {
      assert x in KeysOf(doomed) && y in KeysOf(spared);
      var d :| d in doomed && d.k == x;
      var z :| z in spared && z.k == y;
    }
  }

  lemma PartsOfList(listed: seq<Entry>, doomed: seq<Entry>, spared: seq<Entry>)
    requires multiset(doomed) + multiset(spared) == multiset(listed)
    ensures forall x :: x in listed <==> x in doomed || x in spared
    ensures KeysOf(listed) == KeysOf(doomed) + KeysOf(spared)
  {
    forall x ensures x in listed <==> x in doomed || x in spared {
      assert x in listed <==> x in multiset(listed);
      assert x in doomed <==> x in multiset(doomed);
      assert x in spared <==> x in multiset(spared);
    }
  }

  lemma SpareDistinct(listed: seq<Entry>, limit: nat)
    requires DistinctKeys(Sort(ByTime, listed)) && limit > 0
    ensures DistinctKeys(Spared(listed, limit))
    ensures KeysOf(Doomed(listed, limit)) !! KeysOf(Spared(listed, limit))
  {
    hide Sort;
    var sorted, spared := Sort(ByTime, listed), Spared(listed, limit);
    assert spared == sorted[|sorted| - |spared|..];
    forall d | d in Doomed(listed, limit) ensures d.k !in KeysOf(Spared(listed, limit)) {
      SparedKeysDiffer(listed, limit, d);
    }
  }

  /** From there, a call that runs alone leaves at most the limit of the files, the newest ones, if
      the limit is positive, and all of them if it is 0; it returns its content and holds no lock. */
  lemma PruneAlone(cfg: Config, s: State, e: Event, k: Key, c: Content) returns (n: nat)
    requires e.Step? && e.p in s.pcs && s.pcs[e.p] == Counting(k, c) && s.locks == map[]
    requires Enumerates(e.order, s.files.Keys)
    ensures var t := Again(cfg, s, e, n);
      && t.locks == map[] && t.pcs == s.pcs[e.p := Done(k, c)]
      && (if |s.files| <= cfg.limit || cfg.limit == 0 then t.files == s.files
          else KeepsNewest(s.files, t.files, cfg.limit))
  {
    hide Apply, Doomed, KeepsNewest, Lists, Enumerates;
    Counts(cfg, s, e, k, c);
    var t := Apply(cfg, s, e);
    Once(cfg, s, e);
    n := 1;
    if |s.files| > cfg.limit {
      TakesPruneLock(cfg, t, e, k, c);
      var u := Apply(cfg, t, e);
      Then(cfg, s, e, 1, t, u);
      ListsFiles(cfg, u, e, k, c);
      ListingIsFaithful(cfg, u, e);
      var v := Apply(cfg, u, e);
      Then(cfg, s, e, 2, u, v);
      var m := DeletionsAlone(cfg, v, e, v.pcs[e.p]);
      ThenAgain(cfg, s, e, 3, m);
      n := 3 + m;
      hide Again;
      WithoutDoomed(v.pcs[e.p].listed, s.files, cfg.limit);
      assert v.pcs[e.p := Done(k, c)] == s.pcs[e.p := Done(k, c)];
    }
  }

  lemma ListsFiles(cfg: Config, s: State, e: Event, k: Key, c: Content)
    requires e.Step? && e.p in s.pcs && s.pcs[e.p] == Listing(k, c) && Enumerates(e.order, s.files.Keys)
    ensures var t := Apply(cfg, s, e);
      && e.p in t.pcs && t.pcs[e.p].Pruning? && t.pcs[e.p].k == k && t.pcs[e.p].c == c
      && t.locks == s.locks && t.pcs == s.pcs[e.p := t.pcs[e.p]]
  {
    hide FileStep, Doomed;
  }

  /** A process that dies leaves the call and all its locks, and no other lock; of the files only the
      one it was writing changes, to the first characters of its content. */
  lemma DyingGivesBack(cfg: Config, s: State, p: Process, written: nat, l: LockId, k: Key)
    ensures var t := Apply(cfg, s, Crash(p, written));
      && p !in t.pcs && (forall q | q != p :: q in t.pcs <==> q in s.pcs)
      && t.Owner(l) == (if s.Owner(l) == Some(p) then None else s.Owner(l))
      && t.files.Keys == s.files.Keys
      && (k in s.files ==>
            if p in s.pcs && s.pcs[p].Writing? && s.pcs[p].k == k
            then
              && t.files[k].content <= s.pcs[p].c
              && |t.files[k].content| == (if written < |s.pcs[p].c| then written else |s.pcs[p].c|)
            else t.files[k] == s.files[k])
  {
  }
}
