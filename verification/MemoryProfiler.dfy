/** The allocation accounting of src/memoryprofiler.js: running totals and per-site statistics
    that follow malloc, free, realloc and clear events. The reference is the map of the live
    blocks, from which every statistic can be computed anew. */
module MemoryProfiler {
  import opened Wrappers

  // One entry of allocationsAtLoc, without the filtered call stack it shows
  datatype Stats = Stats(count: int, bytes: int)

  datatype State = State(
    sizeOf: map<nat, nat>,        // sizeOfAllocatedPtr
    preRunSizeOf: map<nat, nat>,  // sizeOfPreRunAllocatedPtr
    atLoc: map<string, Stats>,    // allocationsAtLoc
    siteOf: map<nat, string>,     // allocationSitePtrs
    preRunFinished: bool,
    total: int,
    mallocs: nat,
    frees: nat)

  function Initial(): State {
    State(map[], map[], map[], map[], false, 0, 0, 0)
  }

  function AfterMalloc(s: State, ptr: nat, size: nat, loc: string): State {
    if ptr == 0 || (ptr in s.sizeOf && s.sizeOf[ptr] != 0) then s
    else
      var was := if loc in s.atLoc then s.atLoc[loc] else Stats(0, 0);
      State(s.sizeOf[ptr := size],
            if s.preRunFinished then s.preRunSizeOf else s.preRunSizeOf[ptr := size],
            s.atLoc[loc := Stats(was.count + 1, was.bytes + size)],
            s.siteOf[ptr := loc],
            s.preRunFinished, s.total + size, s.mallocs + 1, s.frees)
  }

  function LocsAfterFree(s: State, ptr: nat): map<string, Stats>
    requires ptr in s.sizeOf
  {
    // An empty location is falsy in JavaScript.
    if ptr !in s.siteOf || s.siteOf[ptr] == "" || s.siteOf[ptr] !in s.atLoc then s.atLoc
    else
      var loc := s.siteOf[ptr];
      var was := s.atLoc[loc];
      if was.count - 1 <= 0 then s.atLoc - {loc}
      else s.atLoc[loc := Stats(was.count - 1, was.bytes - s.sizeOf[ptr])]
  }

  function AfterFree(s: State, ptr: nat): State {
    if ptr == 0 || ptr !in s.sizeOf then s
    else
      State(s.sizeOf - {ptr}, s.preRunSizeOf - {ptr}, LocsAfterFree(s, ptr), s.siteOf - {ptr},
            s.preRunFinished, s.total - s.sizeOf[ptr], s.mallocs, s.frees + 1)
  }

  function AfterClear(s: State): State {
    s.(atLoc := map[], siteOf := map[])
  }

  // A realloc is a free followed by a malloc.
  datatype Event =
    | Malloc(ptr: nat, size: nat, loc: string)
    | Free(ptr: nat)
    | PreloadComplete
    | Clear

  function Step(s: State, e: Event): State {
    match e
    case Malloc(ptr, size, loc) => AfterMalloc(s, ptr, size, loc)
    case Free(ptr) => AfterFree(s, ptr)
    case PreloadComplete => s.(preRunFinished := true)
    case Clear => AfterClear(s)
  }

  function Run(events: seq<Event>): State {
    if events == [] then Initial() else Step(Run(events[..|events| - 1]), events[|events| - 1])
  }

  /** The profiler object. */
  class EmscriptenMemoryProfiler {
    var sizeOfAllocatedPtr: map<nat, nat>
    var sizeOfPreRunAllocatedPtr: map<nat, nat>
    var allocationsAtLoc: map<string, Stats>
    var allocationSitePtrs: map<nat, string>
    var pagePreRunIsFinished: bool
    var totalMemoryAllocated: int
    var totalTimesMallocCalled: nat
    var totalTimesFreeCalled: nat

    ghost function Contents(): State
      reads this
    {
      State(sizeOfAllocatedPtr, sizeOfPreRunAllocatedPtr, allocationsAtLoc, allocationSitePtrs,
            pagePreRunIsFinished, totalMemoryAllocated, totalTimesMallocCalled, totalTimesFreeCalled)
    }

    constructor ()
      ensures Contents() == Initial()
    {
      sizeOfAllocatedPtr, sizeOfPreRunAllocatedPtr := map[], map[];
      allocationsAtLoc, allocationSitePtrs := map[], map[];
      pagePreRunIsFinished := false;
      totalMemoryAllocated, totalTimesMallocCalled, totalTimesFreeCalled := 0, 0, 0;
    }

    method OnMalloc(ptr: nat, size: nat, loc: string)
      modifies this
      ensures Contents() == Step(old(Contents()), Malloc(ptr, size, loc))
    {
      hide AfterFree, AfterClear;
      if ptr == 0 {
        return;
      }
      if ptr in sizeOfAllocatedPtr && sizeOfAllocatedPtr[ptr] != 0 {
        return;
      }
      totalMemoryAllocated := totalMemoryAllocated + size;
      totalTimesMallocCalled := totalTimesMallocCalled + 1;
      sizeOfAllocatedPtr := sizeOfAllocatedPtr[ptr := size];
      if !pagePreRunIsFinished {
        sizeOfPreRunAllocatedPtr := sizeOfPreRunAllocatedPtr[ptr := size];
      }
      CountAt(size, loc);
      allocationSitePtrs := allocationSitePtrs[ptr := loc];
    }

    // The part of onMalloc that counts the allocation at its site
    method CountAt(size: nat, loc: string)
      modifies this`allocationsAtLoc
      ensures var before := old(allocationsAtLoc);
        var was := if loc in before then before[loc] else Stats(0, 0);
        allocationsAtLoc == before[loc := Stats(was.count + 1, was.bytes + size)]
    {
      if loc !in allocationsAtLoc {
        allocationsAtLoc := allocationsAtLoc[loc := Stats(0, 0)];
      }
      var stats := allocationsAtLoc[loc];
      allocationsAtLoc := allocationsAtLoc[loc := Stats(stats.count + 1, stats.bytes + size)];
    }

    method OnFree(ptr: nat)
      modifies this
      ensures Contents() == Step(old(Contents()), Free(ptr))
    {
      hide AfterMalloc, AfterClear;
      ghost var before := Contents();
      if ptr == 0 {
        return;
      }
      if ptr !in sizeOfAllocatedPtr {
        return;
      }
      var sz := sizeOfAllocatedPtr[ptr];
      totalMemoryAllocated := totalMemoryAllocated - sz;
      if ptr in allocationSitePtrs && allocationSitePtrs[ptr] != "" {
        var loc := allocationSitePtrs[ptr];
        if loc in allocationsAtLoc {
          var allocsAtThisLoc := allocationsAtLoc[loc];
          allocsAtThisLoc := Stats(allocsAtThisLoc.count - 1, allocsAtThisLoc.bytes - sz);
          allocationsAtLoc := allocationsAtLoc[loc := allocsAtThisLoc];
          if allocsAtThisLoc.count <= 0 {
            allocationsAtLoc := allocationsAtLoc - {loc};
          }
        }
      }
      assert allocationsAtLoc == LocsAfterFree(before, ptr);
      allocationSitePtrs := allocationSitePtrs - {ptr};
      sizeOfAllocatedPtr := sizeOfAllocatedPtr - {ptr};
      sizeOfPreRunAllocatedPtr := sizeOfPreRunAllocatedPtr - {ptr};
      totalTimesFreeCalled := totalTimesFreeCalled + 1;
    }

    method OnRealloc(oldAddress: nat, newAddress: nat, size: nat, loc: string)
      modifies this
      ensures Contents() == Step(Step(old(Contents()), Free(oldAddress)), Malloc(newAddress, size, loc))
    {
      OnFree(oldAddress);
      OnMalloc(newAddress, size, loc);
    }

    method OnPreloadComplete()
      modifies this
      ensures Contents() == Step(old(Contents()), PreloadComplete)
    {
      pagePreRunIsFinished := true;
    }

    // The click handler of the button that clears the statistics
    method ClearAllocStats()
      modifies this
      ensures Contents() == Step(old(Contents()), Clear)
    {
      allocationsAtLoc := map[];
      allocationSitePtrs := map[];
    }
  }

  // ---- The reference: the live blocks ----

  // A block that is live, the site it is attributed to, if no clear came since, and whether it
  // was allocated before the preload completed
  datatype Block = Block(size: nat, site: Option<string>, preRun: bool)

  datatype Heap = Heap(live: map<nat, Block>, preRunFinished: bool)

  function Unattributed(live: map<nat, Block>): map<nat, Block> {
    map p | p in live :: live[p].(site := None)
  }

  // What the events mean: a malloc of a pointer that is live with a size is ignored.
  function Happen(h: Heap, e: Event): Heap {
    match e
    case Malloc(ptr, size, loc) =>
      if ptr == 0 || (ptr in h.live && h.live[ptr].size > 0) then h
      else h.(live := h.live[ptr := Block(size, Some(loc), !h.preRunFinished)])
    case Free(ptr) => h.(live := h.live - {ptr})
    case PreloadComplete => h.(preRunFinished := true)
    case Clear => h.(live := Unattributed(h.live))
  }

  function HeapAfter(events: seq<Event>): Heap {
    if events == [] then Heap(map[], false) else Happen(HeapAfter(events[..|events| - 1]), events[|events| - 1])
  }

  function Sizes(live: map<nat, Block>): map<nat, nat> {
    map p | p in live :: live[p].size
  }

  function PreRunSizes(live: map<nat, Block>): map<nat, nat> {
    map p | p in live && live[p].preRun :: live[p].size
  }

  function Sites(live: map<nat, Block>): map<nat, string> {
    map p | p in live && live[p].site.Some? :: live[p].site.value
  }

  // The sum of the sizes of some live blocks
  ghost function Bytes(live: map<nat, Block>, ptrs: set<nat>): int
    requires ptrs <= live.Keys
  {
    if ptrs == {} then 0
    else
      var p :| p in ptrs;
      live[p].size + Bytes(live, ptrs - {p})
  }

  // The pointers attributed to a site
  ghost function At(live: map<nat, Block>, loc: string): set<nat> {
    set p | p in live && live[p].site == Some(loc)
  }

  // The entry of a site counts the pointers attributed to it, and is absent if there are none.
  ghost predicate SiteExact(atLoc: map<string, Stats>, live: map<nat, Block>, loc: string) {
    if At(live, loc) == {} then loc !in atLoc
    else loc in atLoc && atLoc[loc] == Stats(|At(live, loc)|, Bytes(live, At(live, loc)))
  }

  ghost predicate SitesExact(atLoc: map<string, Stats>, live: map<nat, Block>) {
    forall loc :: SiteExact(atLoc, live, loc)
  }

  ghost predicate PointersExact(s: State, h: Heap) {
    && 0 !in h.live
    && s.preRunFinished == h.preRunFinished
    && s.sizeOf == Sizes(h.live)
    && s.preRunSizeOf == PreRunSizes(h.live)
    && s.siteOf == Sites(h.live)
  }

  // Every statistic is what one would compute from the live blocks.
  ghost predicate Exact(s: State, h: Heap) {
    && PointersExact(s, h)
    && s.total == Bytes(h.live, h.live.Keys)
    && s.mallocs - s.frees == |h.live|
    && SitesExact(s.atLoc, h.live)
  }

  // The events that upset the accounts: a malloc of a pointer still tracked with size 0, which is
  // taken for untracked, and the free of a pointer whose location is empty, which is taken for none
  predicate Accountable(s: State, e: Event) {
    match e
    case Malloc(ptr, _, _) => !(ptr in s.sizeOf && s.sizeOf[ptr] == 0)
    case Free(ptr) => !(ptr in s.siteOf && s.siteOf[ptr] == "")
    case PreloadComplete => true
    case Clear => true
  }

  lemma {:induction false} BytesWithout(live: map<nat, Block>, ptrs: set<nat>, p: nat)
    requires ptrs <= live.Keys && p in ptrs
    ensures Bytes(live, ptrs) == live[p].size + Bytes(live, ptrs - {p})
  {
    var q :| q in ptrs && Bytes(live, ptrs) == live[q].size + Bytes(live, ptrs - {q});
    if p != q {
      BytesWithout(live, ptrs - {q}, p);
      BytesWithout(live, ptrs - {p}, q);
      assert ptrs - {q} - {p} == ptrs - {p} - {q};
    }
  }

  lemma {:induction false} BytesSame(a: map<nat, Block>, b: map<nat, Block>, ptrs: set<nat>)
    requires ptrs <= a.Keys && ptrs <= b.Keys && forall p | p in ptrs :: a[p].size == b[p].size
    ensures Bytes(a, ptrs) == Bytes(b, ptrs)
  {
    if ptrs != {} {
      var p :| p in ptrs;
      BytesWithout(a, ptrs, p);
      BytesWithout(b, ptrs, p);
      BytesSame(a, b, ptrs - {p});
    }
  }

  // A new block adds its size, and counts at its site.
  lemma TotalsAfterMalloc(live: map<nat, Block>, p: nat, b: Block)
    requires p !in live
    ensures var more := live[p := b];
      Bytes(more, more.Keys) == Bytes(live, live.Keys) + b.size && |more| == |live| + 1
  {
    var more := live[p := b];
    assert more.Keys - {p} == live.Keys && more.Keys == live.Keys + {p};
    BytesWithout(more, more.Keys, p);
    BytesSame(more, live, live.Keys);
  }

  lemma BlockAdded(live: map<nat, Block>, p: nat, b: Block, loc: string)
    requires p !in live && b.site == Some(loc)
    ensures var more := live[p := b];
      && At(more, loc) != {}
      && |At(more, loc)| == |At(live, loc)| + 1
      && (At(live, loc) == {} ==> |At(live, loc)| == 0)
      && Bytes(more, At(more, loc)) == Bytes(live, At(live, loc)) + b.size
  {
    var more := live[p := b];
    assert p in At(more, loc) && At(more, loc) == At(live, loc) + {p};
    assert At(more, loc) - {p} == At(live, loc);
    BytesWithout(more, At(more, loc), p);
    BytesSame(more, live, At(live, loc));
  }

  lemma OtherSite(live: map<nat, Block>, more: map<nat, Block>, loc: string)
    requires forall p | p in live && live[p].site == Some(loc) :: p in more && more[p] == live[p]
    requires forall p | p in more && more[p].site == Some(loc) :: p in live && live[p] == more[p]
    ensures At(more, loc) == At(live, loc) && Bytes(more, At(more, loc)) == Bytes(live, At(live, loc))
  {
    assert At(more, loc) == At(live, loc);
    BytesSame(live, more, At(live, loc));
  }

  lemma SiteAfterMalloc(s: State, live: map<nat, Block>, ptr: nat, b: Block, loc: string, l: string)
    requires ptr !in live && ptr !in s.sizeOf && ptr != 0 && b.site == Some(loc) && SitesExact(s.atLoc, live)
    ensures SiteExact(AfterMalloc(s, ptr, b.size, loc).atLoc, live[ptr := b], l)
  {
    hide At, SitesExact, Bytes;
    AtSite(s.atLoc, live, l);
    if l == loc {
      BlockAdded(live, ptr, b, loc);
      assert At(live, l) == {} ==> Bytes(live, At(live, l)) == 0 by {
        NoBytes(live);
      }
    } else {
      OtherSite(live, live[ptr := b], l);
    }
  }

  lemma NoBytes(live: map<nat, Block>)
    ensures Bytes(live, {}) == 0
  {
  }

  lemma SiteAfterFree(s: State, h: Heap, ptr: nat, loc: string)
    requires PointersExact(s, h) && SitesExact(s.atLoc, h.live) && ptr in h.live
    ensures SiteExact(LocsAfterFree(s, ptr), h.live - {ptr}, loc) <==>
            !(h.live[ptr].site == Some(loc) && loc == "")
  {
    hide PreRunSizes, SitesExact, At;
    var live, less := h.live, h.live - {ptr};
    assert SiteExact(s.atLoc, live, loc) by {
      AtSite(s.atLoc, live, loc);
    }
    if live[ptr].site == Some(loc) {
      BlockRemoved(live, ptr, loc);
      assert loc in s.atLoc && ptr in s.siteOf && s.siteOf[ptr] == loc;
    } else {
      assert forall p | p in less :: less[p] == live[p];
      OtherSite(live, less, loc);
      assert loc in s.atLoc <==> loc in LocsAfterFree(s, ptr);
    }
  }

  lemma AtSite(atLoc: map<string, Stats>, live: map<nat, Block>, loc: string)
    requires SitesExact(atLoc, live)
    ensures SiteExact(atLoc, live, loc)
  {
  }

  // A block that goes takes its size with it.
  lemma BlockRemoved(live: map<nat, Block>, p: nat, loc: string)
    requires p in live && live[p].site == Some(loc)
    ensures var less := live - {p};
      && At(live, loc) != {}
      && |At(less, loc)| == |At(live, loc)| - 1
      && (At(less, loc) == {} <==> |At(less, loc)| == 0)
      && Bytes(less, At(less, loc)) == Bytes(live, At(live, loc)) - live[p].size
  {
    var less := live - {p};
    assert forall q | q in less :: less[q] == live[q];
    assert p in At(live, loc) && At(less, loc) == At(live, loc) - {p};
    BytesWithout(live, At(live, loc), p);
    BytesSame(live, less, At(less, loc));
  }

  lemma SizesWith(live: map<nat, Block>, p: nat, b: Block)
    ensures Sizes(live[p := b]) == Sizes(live)[p := b.size]
  {
  }

  lemma PreRunSizesWith(live: map<nat, Block>, p: nat, b: Block)
    requires p !in live
    ensures PreRunSizes(live[p := b]) == if b.preRun then PreRunSizes(live)[p := b.size] else PreRunSizes(live)
  {
  }

  lemma SitesWith(live: map<nat, Block>, p: nat, b: Block)
    requires b.site.Some?
    ensures Sites(live[p := b]) == Sites(live)[p := b.site.value]
  {
  }

  lemma PointersAfterMalloc(s: State, h: Heap, ptr: nat, size: nat, loc: string)
    requires PointersExact(s, h) && ptr != 0 && ptr !in h.live
    ensures PointersExact(AfterMalloc(s, ptr, size, loc), Happen(h, Malloc(ptr, size, loc)))
  {
    assert ptr !in s.sizeOf;
    hide Sizes, PreRunSizes, Sites;
    var b := Block(size, Some(loc), !h.preRunFinished);
    SizesWith(h.live, ptr, b);
    PreRunSizesWith(h.live, ptr, b);
    SitesWith(h.live, ptr, b);
  }

  lemma SizesWithout(live: map<nat, Block>, p: nat)
    ensures Sizes(live - {p}) == Sizes(live) - {p}
    ensures PreRunSizes(live - {p}) == PreRunSizes(live) - {p}
  {
  }

  lemma SitesWithout(live: map<nat, Block>, p: nat)
    ensures Sites(live - {p}) == Sites(live) - {p}
  {
  }

  lemma PointersAfterFree(s: State, h: Heap, ptr: nat)
    requires PointersExact(s, h) && ptr in h.live
    ensures PointersExact(AfterFree(s, ptr), Happen(h, Free(ptr)))
  {
    assert ptr in s.sizeOf;
    hide LocsAfterFree, Sizes, PreRunSizes, Sites;
    SizesWithout(h.live, ptr);
    SitesWithout(h.live, ptr);
  }

  lemma PointersAfterClear(s: State, h: Heap)
    requires PointersExact(s, h)
    ensures PointersExact(AfterClear(s), Happen(h, Clear))
  {
    var live := Unattributed(h.live);
    assert Sizes(live) == Sizes(h.live);
    assert PreRunSizes(live) == PreRunSizes(h.live);
    assert Sites(live) == map[];
  }

  lemma TotalsAfterFree(s: State, h: Heap, ptr: nat)
    requires ptr in h.live
    ensures var less := h.live - {ptr};
      Bytes(less, less.Keys) == Bytes(h.live, h.live.Keys) - h.live[ptr].size && |less| == |h.live| - 1
  {
    var less := h.live - {ptr};
    assert less.Keys == h.live.Keys - {ptr};
    BytesWithout(h.live, h.live.Keys, ptr);
    BytesSame(h.live, less, less.Keys);
    assert |less| == |less.Keys| && |h.live| == |h.live.Keys|;
  }

  lemma SitesAfterFree(s: State, h: Heap, ptr: nat)
    requires PointersExact(s, h) && SitesExact(s.atLoc, h.live) && ptr in h.live
    ensures SitesExact(LocsAfterFree(s, ptr), h.live - {ptr}) <==> Accountable(s, Free(ptr))
  {
    var after, less := LocsAfterFree(s, ptr), h.live - {ptr};
    forall loc
      ensures SiteExact(after, less, loc) <==> !(h.live[ptr].site == Some(loc) && loc == "")
    {
      SiteAfterFree(s, h, ptr, loc);
    }
    hide SiteExact, LocsAfterFree, PreRunSizes, Sizes;
    assert SiteExact(after, less, "") <==> Accountable(s, Free(ptr));
  }

  lemma FreeKeepsExact(s: State, h: Heap, ptr: nat)
    requires Exact(s, h)
    ensures Exact(AfterFree(s, ptr), Happen(h, Free(ptr))) <==> Accountable(s, Free(ptr))
  {
    hide SitesExact, Accountable, LocsAfterFree, Bytes, PreRunSizes, Sites;
    if ptr in h.live {
      PointersAfterFree(s, h, ptr);
      TotalsAfterFree(s, h, ptr);
      SitesAfterFree(s, h, ptr);
      hide PointersExact;
      assert AfterFree(s, ptr).atLoc == LocsAfterFree(s, ptr);
    } else {
      assert h.live - {ptr} == h.live;
      UntrackedIsAccountable(s, h, ptr);
    }
  }

  lemma UntrackedIsAccountable(s: State, h: Heap, ptr: nat)
    requires PointersExact(s, h) && ptr !in h.live
    ensures Accountable(s, Free(ptr))
  {
  }

  lemma NewBlockKeepsExact(s: State, h: Heap, ptr: nat, size: nat, loc: string)
    requires Exact(s, h) && ptr != 0 && ptr !in h.live
    ensures Exact(AfterMalloc(s, ptr, size, loc), Happen(h, Malloc(ptr, size, loc)))
  {
    var b := Block(size, Some(loc), !h.preRunFinished);
    PointersAfterMalloc(s, h, ptr, size, loc);
    TotalsAfterMalloc(h.live, ptr, b);
    var after, more := AfterMalloc(s, ptr, size, loc).atLoc, h.live[ptr := b];
    forall l ensures SiteExact(after, more, l) {
      SiteAfterMalloc(s, h.live, ptr, b, loc, l);
    }
    assert SitesExact(after, more);
    hide SitesExact, PointersExact, At;
  }

  lemma MallocKeepsExact(s: State, h: Heap, ptr: nat, size: nat, loc: string)
    requires Exact(s, h)
    ensures Exact(AfterMalloc(s, ptr, size, loc), Happen(h, Malloc(ptr, size, loc))) <==>
            Accountable(s, Malloc(ptr, size, loc))
  {
    hide SitesExact;
    var e := Malloc(ptr, size, loc);
    if !Accountable(s, e) {
      assert Happen(h, e).live.Keys == h.live.Keys;
      assert |Happen(h, e).live| == |Happen(h, e).live.Keys| == |h.live.Keys|;
    } else if ptr != 0 && ptr !in h.live {
      NewBlockKeepsExact(s, h, ptr, size, loc);
    }
  }

  lemma TotalsAfterClear(live: map<nat, Block>)
    ensures var cleared := Unattributed(live);
      |cleared| == |live| && Bytes(cleared, cleared.Keys) == Bytes(live, live.Keys)
  {
    var cleared := Unattributed(live);
    assert cleared.Keys == live.Keys;
    assert |cleared| == |cleared.Keys| && |live| == |live.Keys|;
    BytesSame(live, cleared, live.Keys);
  }

  lemma NoSites(live: map<nat, Block>)
    ensures SitesExact(map[], Unattributed(live))
  {
    forall loc ensures SiteExact(map[], Unattributed(live), loc) {
      assert At(Unattributed(live), loc) == {};
    }
  }

  lemma ClearKeepsExact(s: State, h: Heap)
    requires Exact(s, h)
    ensures Exact(AfterClear(s), Happen(h, Clear))
  {
    hide Bytes, SitesExact, Unattributed, PointersExact;
    PointersAfterClear(s, h);
    TotalsAfterClear(h.live);
    NoSites(h.live);
  }

  /** An event keeps the accounts exact if and only if it is none of the two kinds above. */
  lemma StepKeepsExactIff(s: State, h: Heap, e: Event)
    requires Exact(s, h)
    ensures Exact(Step(s, e), Happen(h, e)) <==> Accountable(s, e)
  {
    match e
    case Malloc(ptr, size, loc) => MallocKeepsExact(s, h, ptr, size, loc);
    case Free(ptr) => FreeKeepsExact(s, h, ptr);
    case PreloadComplete =>
    case Clear => ClearKeepsExact(s, h);
  }

  ghost predicate ExactAfter(events: seq<Event>) {
    Exact(Run(events), HeapAfter(events))
  }

  ghost predicate AlwaysExact(events: seq<Event>) {
    forall k | 0 <= k <= |events| :: ExactAfter(events[..k])
  }

  predicate AllAccountable(events: seq<Event>) {
    forall k | 0 <= k < |events| :: Accountable(Run(events[..k]), events[k])
  }

  /** Over any events, the statistics stay equal to what the live blocks give, at every point of
      the run, if and only if none of the events is of the two kinds above. */
  lemma {:induction false} AlwaysExactIff(events: seq<Event>)
    ensures AlwaysExact(events) <==> AllAccountable(events)
  {
    hide ExactAfter, Accountable, Run;
    if events == [] {
      NothingIsExact();
      assert events[..0] == [];
    } else {
      hide AlwaysExact, AllAccountable;
      AlwaysExactIff(events[..|events| - 1]);
      LastStep(events);
      Prefixes(events);
      AccountablePrefixes(events);
    }
  }

  lemma AccountablePrefixes(events: seq<Event>)
    requires events != []
    ensures var n := |events| - 1;
      AllAccountable(events) <==> AllAccountable(events[..n]) && Accountable(Run(events[..n]), events[n])
  {
    hide Accountable, Run;
    var n := |events| - 1;
    var front := events[..n];
    forall k | 0 <= k < n ensures front[..k] == events[..k] && front[k] == events[k] {
    }
    if AllAccountable(events) {
      forall k | 0 <= k < n ensures Accountable(Run(front[..k]), front[k]) {
        assert Accountable(Run(events[..k]), events[k]);
      }
    }
    if AllAccountable(front) && Accountable(Run(front), events[n]) {
      forall k | 0 <= k < n + 1 ensures Accountable(Run(events[..k]), events[k]) {
        assert k < n ==> Accountable(Run(front[..k]), front[k]);
      }
    }
  }

  lemma NothingIsExact()
    ensures ExactAfter([])
  {
    forall loc ensures SiteExact(map[], map[], loc) {
      assert At(map[], loc) == {};
    }
    assert Sizes(map[]) == map[] && PreRunSizes(map[]) == map[] && Sites(map[]) == map[];
  }

  lemma LastStep(events: seq<Event>)
    requires events != []
    ensures var front, last := events[..|events| - 1], events[|events| - 1];
      ExactAfter(front) ==> (ExactAfter(events) <==> Accountable(Run(front), last))
  {
    var front, last := events[..|events| - 1], events[|events| - 1];
    if ExactAfter(front) {
      StepKeepsExactIff(Run(front), HeapAfter(front), last);
      hide Exact, Step, Happen, Accountable;
    }
  }

  lemma Prefixes(events: seq<Event>)
    requires events != []
    ensures var front := events[..|events| - 1];
      && (AlwaysExact(events) <==> AlwaysExact(front) && ExactAfter(events))
      && (AlwaysExact(front) ==> ExactAfter(front))
      && (forall k | 0 <= k < |events| :: events[..k] == front[..k])
  {
    hide ExactAfter;
    var n := |events| - 1;
    var front := events[..n];
    forall k | 0 <= k <= n ensures front[..k] == events[..k] {
    }
    assert events[..n + 1] == events && front[..n] == front;
    assert AlwaysExact(events) ==> ExactAfter(events[..n + 1]);
    if AlwaysExact(events) {
      forall k | 0 <= k <= n ensures ExactAfter(front[..k]) {
        assert ExactAfter(events[..k]);
      }
    }
    if AlwaysExact(front) && ExactAfter(events) {
      forall k | 0 <= k <= n + 1 ensures ExactAfter(events[..k]) {
        assert k <= n ==> ExactAfter(front[..k]);
      }
    }
  }

  // What an allocator does: it never hands out a pointer that is still live, and each call has a
  // call stack.
  predicate FromAllocator(events: seq<Event>) {
    forall k | 0 <= k < |events| && events[k].Malloc? ::
      events[k].ptr !in HeapAfter(events[..k]).live && events[k].loc != ""
  }

  ghost predicate SitesNamed(live: map<nat, Block>) {
    forall p | p in live :: live[p].site != Some("")
  }

  /** With such an allocator the accounts are always exact. */
  lemma {:induction false} AllocatorRunsAreExact(events: seq<Event>)
    requires FromAllocator(events)
    ensures AlwaysExact(events) && SitesNamed(HeapAfter(events).live)
  {
    hide ExactAfter, Accountable, Run;
    if events == [] {
      NothingIsExact();
      assert events[..0] == [];
    } else {
      hide AlwaysExact, FromAllocator;
      var n := |events| - 1;
      var front := events[..n];
      Prefixes(events);
      AllocatorPrefix(events);
      AllocatorRunsAreExact(front);
      LastStep(events);
      assert Exact(Run(front), HeapAfter(front)) by {
        ExactAfterIs(front);
      }
      NamedIsAccountable(Run(front), HeapAfter(front), events[n]);
    }
  }

  lemma ExactAfterIs(events: seq<Event>)
    requires ExactAfter(events)
    ensures Exact(Run(events), HeapAfter(events))
  {
  }

  lemma AllocatorPrefix(events: seq<Event>)
    requires FromAllocator(events) && events != []
    ensures var n := |events| - 1;
      && FromAllocator(events[..n])
      && (events[n].Malloc? ==> events[n].ptr !in HeapAfter(events[..n]).live && events[n].loc != "")
  {
    hide HeapAfter;
    var front := events[..|events| - 1];
    forall k | 0 <= k < |front| ensures front[..k] == events[..k] && front[k] == events[k] {
    }
  }

  lemma NamedIsAccountable(s: State, h: Heap, e: Event)
    requires SitesNamed(h.live) && (e.Malloc? ==> e.ptr !in h.live)
    ensures Exact(s, h) ==> Accountable(s, e)
  {
  }

  /** When every block is freed, nothing remains in any statistic. */
  lemma AllFreedNothingCounted(events: seq<Event>)
    requires AllAccountable(events) && HeapAfter(events).live == map[]
    ensures var s := Run(events);
      s.total == 0 && s.mallocs == s.frees && s.sizeOf == map[] && s.preRunSizeOf == map[] &&
      s.siteOf == map[] && s.atLoc == map[]
  {
    AlwaysExactIff(events);
    assert ExactAfter(events[..|events|]) && events[..|events|] == events;
    NothingLive(Run(events), HeapAfter(events));
    hide Run, Exact;
  }

  lemma NothingLive(s: State, h: Heap)
    requires Exact(s, h) && h.live == map[]
    ensures s.total == 0 && s.mallocs == s.frees && s.sizeOf == map[] && s.preRunSizeOf == map[]
    ensures s.siteOf == map[] && s.atLoc == map[]
  {
    forall loc ensures loc !in s.atLoc {
      assert SiteExact(s.atLoc, h.live, loc) && At(h.live, loc) == {};
    }
  }

  /** A malloc(0) pointer that is handed out twice is counted twice. */
  lemma ZeroSizeCountsTwice()
    ensures var events := [Malloc(16, 0, "a"), Malloc(16, 8, "b"), Free(16)];
      HeapAfter(events).live == map[] && Run(events).mallocs - Run(events).frees == 1 && "a" in Run(events).atLoc
  {
    var events := [Malloc(16, 0, "a"), Malloc(16, 8, "b"), Free(16)];
    assert events[..2] == [Malloc(16, 0, "a"), Malloc(16, 8, "b")];
    assert events[..2][..1] == [Malloc(16, 0, "a")];
    assert events[..2][..1][..0] == [];
    var s1 := Run([Malloc(16, 0, "a")]);
    assert s1 == AfterMalloc(Initial(), 16, 0, "a");
    var s2 := AfterMalloc(s1, 16, 8, "b");
    assert Run(events[..2]) == s2;
    assert Run(events) == AfterFree(s2, 16);
    assert s2.siteOf[16] == "b" && "a" in s2.atLoc;
    assert HeapAfter(events).live.Keys == {};
  }

  // ---- The counts of calls ----

  // Mallocs of a pointer that is not tracked yet, or tracked with size 0
  function MallocsDone(events: seq<Event>): nat {
    if events == [] then 0
    else
      var front, last := events[..|events| - 1], events[|events| - 1];
      var live := HeapAfter(front).live;
      MallocsDone(front) +
      (if last.Malloc? && last.ptr != 0 && !(last.ptr in live && live[last.ptr].size > 0) then 1 else 0)
  }

  // Frees of a live pointer
  function FreesDone(events: seq<Event>): nat {
    if events == [] then 0
    else
      var front, last := events[..|events| - 1], events[|events| - 1];
      FreesDone(front) + (if last.Free? && last.ptr in HeapAfter(front).live then 1 else 0)
  }

  /** On every run, upset accounts or not, the sizes are those of the live blocks, and the two counters
      count the mallocs that were tracked and the frees of live pointers. */
  lemma {:induction false} CountersCountCalls(events: seq<Event>)
    ensures var s, live := Run(events), HeapAfter(events).live;
      0 !in live && s.sizeOf == Sizes(live) && s.mallocs == MallocsDone(events) && s.frees == FreesDone(events)
  {
    if events != [] {
      var front, last := events[..|events| - 1], events[|events| - 1];
      CountersCountCalls(front);
      SizesNext(Run(front), HeapAfter(front), last);
      hide Step, Happen, Sizes;
    } else {
      assert Sizes(map[]) == map[];
    }
  }

  lemma SizesNext(s: State, h: Heap, e: Event)
    requires 0 !in h.live && s.sizeOf == Sizes(h.live)
    ensures 0 !in Happen(h, e).live && Step(s, e).sizeOf == Sizes(Happen(h, e).live)
    ensures Step(s, e).mallocs ==
            s.mallocs + if e.Malloc? && e.ptr != 0 && !(e.ptr in h.live && h.live[e.ptr].size > 0) then 1 else 0
    ensures Step(s, e).frees == s.frees + if e.Free? && e.ptr in h.live then 1 else 0
  {
    hide LocsAfterFree;
    match e
    case Malloc(ptr, size, loc) =>
      SizesWith(h.live, ptr, Block(size, Some(loc), !h.preRunFinished));
    case Free(ptr) =>
      SizesWithout(h.live, ptr);
      assert ptr !in h.live ==> h.live - {ptr} == h.live;
    case PreloadComplete =>
    case Clear =>
      assert Sizes(Unattributed(h.live)) == Sizes(h.live);
  }
}
