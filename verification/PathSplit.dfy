/** How get_path_to_functions_map of tools/empath-split.py assigns functions to the listed paths:
    paths are visited in descending order of their text, and each takes the functions under it
    that no path has taken yet. */
module PathSplit {
  import opened Wrappers
  import opened OrderedDict
  import opened Sorting
  import opened Utils

  // ---- pathlib.PurePath on POSIX ----

  datatype Path = Path(root: string, parts: seq<string>)

  // Exactly two leading slashes are a root of their own.
  function Root(s: string): string {
    if s == "" || s[0] != '/' then ""
    else if |s| > 1 && s[1] == '/' && (|s| == 2 || s[2] != '/') then "//"
    else "/"
  }

  // The pieces between slashes, without empty ones and "."
  function Parts(s: string): seq<string> {
    Keep(Pieces(s))
  }

  function Pieces(s: string): (r: seq<string>)
    ensures r != []
  {
    if s == "" then [""]
    else
      var rest := Pieces(s[1..]);
      if s[0] == '/' then [""] + rest else [[s[0]] + rest[0]] + rest[1..]
  }

  function Keep(pieces: seq<string>): seq<string> {
    if pieces == [] then []
    else (if pieces[0] == "" || pieces[0] == "." then [] else [pieces[0]]) + Keep(pieces[1..])
  }

  function Parse(s: string): Path {
    Path(Root(s), Parts(s))
  }

  // ppath == psrc or ppath in psrc.parents
  predicate Contains(path: string, src: string) {
    Parse(path).root == Parse(src).root && Parse(path).parts <= Parse(src).parts
  }

  lemma {:induction false} HalvedPieces(s: string)
    ensures Pieces(HalveSlashes(s))[0] == Pieces(s)[0]
    ensures Keep(Pieces(HalveSlashes(s))[1..]) == Keep(Pieces(s)[1..])
  {
    if |s| > 1 && s[0] == '/' && s[1] == '/' {
      var tail := s[2..];
      HalvedPieces(tail);
      assert s[1..][1..] == tail && HalveSlashes(s)[1..] == HalveSlashes(tail);
      assert Pieces(s)[1..] == [""] + Pieces(tail) && Pieces(HalveSlashes(s))[1..] == Pieces(HalveSlashes(tail));
      KeepSplits(Pieces(tail));
      KeepSplits(Pieces(HalveSlashes(tail)));
      KeepSplits([""] + Pieces(tail));
    } else if s != "" {
      var tail := s[1..];
      HalvedPieces(tail);
      assert HalveSlashes(s)[1..] == HalveSlashes(tail);
      KeepSplits(Pieces(tail));
      KeepSplits(Pieces(HalveSlashes(tail)));
    }
  }

  lemma KeepSplits(pieces: seq<string>)
    requires pieces != []
    ensures Keep(pieces) == (if pieces[0] == "" || pieces[0] == "." then [] else [pieces[0]]) + Keep(pieces[1..])
  {
  }

  /** Normalizing a path replaces its backslashes and keeps its parts. */
  lemma NormalizeKeepsParts(s: string)
    ensures Parts(NormalizePath(s)) == Parts(ForwardSlashes(s))
  {
    HalvedPieces(ForwardSlashes(s));
    KeepSplits(Pieces(NormalizePath(s)));
    KeepSplits(Pieces(ForwardSlashes(s)));
  }

  // The text of a path, as str(PurePath) gives it
  function JoinParts(parts: seq<string>): string {
    if parts == [] then ""
    else if |parts| == 1 then parts[0]
    else JoinParts(parts[..|parts| - 1]) + "/" + parts[|parts| - 1]
  }

  function Render(p: Path): string {
    if p.root == "" && p.parts == [] then "." else p.root + JoinParts(p.parts)
  }

  predicate Canonical(s: string) {
    Render(Parse(s)) == s
  }

  // ---- Descending text order ----

  predicate TextLess(a: string, b: string) {
    b != "" && (a == "" || a[0] < b[0] || (a[0] == b[0] && TextLess(a[1..], b[1..])))
  }

  predicate Descending(a: string, b: string) {
    !TextLess(a, b)
  }

  lemma {:induction false} TextTrichotomy(a: string, b: string)
    ensures TextLess(a, b) || TextLess(b, a) || a == b
    ensures !(TextLess(a, b) && TextLess(b, a))
    ensures !TextLess(a, a)
  {
    if a != "" && b != "" {
      TextTrichotomy(a[1..], b[1..]);
      assert a == [a[0]] + a[1..] && b == [b[0]] + b[1..];
      TextTrichotomy(a[1..], a[1..]);
    } else if a != "" {
      TextTrichotomy(a[1..], a[1..]);
    }
  }

  lemma {:induction false} TextTransitive(a: string, b: string, c: string)
    requires !TextLess(a, b) && !TextLess(b, c)
    ensures !TextLess(a, c)
  {
    if a != "" && b != "" && c != "" && a[0] == b[0] == c[0] {
      TextTransitive(a[1..], b[1..], c[1..]);
    }
  }

  lemma DescendingIsOrder()
    ensures TotalPreorder(Descending)
  {
    forall a, b ensures Descending(a, b) || Descending(b, a) {
      TextTrichotomy(a, b);
    }
    forall a, b, c | Descending(a, b) && Descending(b, c) ensures Descending(a, c) {
      TextTransitive(a, b, c);
    }
  }

  lemma {:induction false} PrefixIsLess(a: string, b: string)
    requires a < b
    ensures TextLess(a, b)
  {
    if a != "" {
      assert a[0] == b[0];
      PrefixIsLess(a[1..], b[1..]);
    }
  }

  // ---- The sweep ----

  // src_to_funcs: a source path and its functions
  type Source = Item<string, seq<string>>

  // The first of the paths that contains the source takes its functions.
  function FirstContaining(paths: seq<string>, src: string): Option<string> {
    if paths == [] then None
    else if Contains(paths[0], src) then Some(paths[0])
    else FirstContaining(paths[1..], src)
  }

  // The functions of the sources that go to path
  function Taken(sources: seq<Source>, paths: seq<string>, path: string): seq<string> {
    if sources == [] then []
    else
      var last := sources[|sources| - 1];
      Taken(sources[..|sources| - 1], paths, path) +
      (if FirstContaining(paths, last.key) == Some(path) then last.value else [])
  }

  // Every function has one source, and is listed there once.
  ghost predicate OneSourceEach(sources: seq<Source>) {
    && (forall k, i, j | 0 <= k < |sources| && 0 <= i < j < |sources[k].value| ::
          sources[k].value[i] != sources[k].value[j])
    && (forall k, l | 0 <= k < l < |sources| :: forall f | f in sources[k].value :: f !in sources[l].value)
  }

  predicate Distinct(paths: seq<string>) {
    forall i, j | 0 <= i < j < |paths| :: paths[i] != paths[j]
  }

  function FuncSet(s: Source): set<string> {
    set f | f in s.value
  }

  // Functions of the sources that some of the paths contains
  function Visited(sources: seq<Source>, paths: seq<string>): set<string> {
    if sources == [] then {}
    else
      var last := sources[|sources| - 1];
      Visited(sources[..|sources| - 1], paths) + (if FirstContaining(paths, last.key).Some? then FuncSet(last) else {})
  }

  // sorted(paths, reverse=True)
  function Order(paths: seq<string>): seq<string> {
    Sort(Descending, paths)
  }

  /** The sweep as the source does it, with its set of visited functions; each path of the result
      has exactly the functions of the sources it is the first in order to contain. */
  method PathToFuncs(sources: seq<Source>, paths: seq<string>) returns (m: map<string, seq<string>>)
    requires OneSourceEach(sources) && Distinct(paths)
    ensures m.Keys == set p | p in paths
    ensures forall p | p in paths :: m[p] == Taken(sources, Order(paths), p)
  {
    var order, visited := Order(paths), {};
    OrderPermutes(paths);
    hide Order;
    m := map[];
    VisitedNothing(sources);
    for i := 0 to |order|
      invariant m.Keys == set p | p in order[..i]
      invariant forall p | p in m :: m[p] == Taken(sources, order, p)
      invariant visited == Visited(sources, order[..i])
    {
      var funcs;
      funcs, visited := Sweep(sources, order, i, visited);
      m := m[order[i] := funcs];
    }
    assert order[..|order|] == order;
    assert forall p :: p in order <==> p in multiset(order);
    assert forall p :: p in paths <==> p in multiset(paths);
  }

  // The loop over the sources, for one path
  method Sweep(sources: seq<Source>, order: seq<string>, i: nat, before: set<string>)
    returns (funcs: seq<string>, visited: set<string>)
    requires OneSourceEach(sources) && Distinct(order) && i < |order|
    requires before == Visited(sources, order[..i])
    ensures funcs == Taken(sources, order, order[i])
    ensures visited == Visited(sources, order[..i + 1])
  {
    hide Taken, Visited, FirstContaining, Contains, FuncSet;
    visited, funcs := before, [];
    NothingTaken(sources, order, order[i], order[..i + 1]);
    for k := 0 to |sources|
      invariant funcs == Taken(sources[..k], order, order[i])
      invariant visited == Visited(sources, order[..i]) + Visited(sources[..k], order[..i + 1])
    {
      var s := sources[k];
      VisitedTogether(sources, order[..i], sources[..k], order[..i + 1], k);
      TakenNext(sources, k, order, order[i]);
      VisitedNext(sources, k, order[..i + 1]);
      FirstIs(order, i, s.key);
      FirstContainingNext(order, i, s.key);
      NoFuncs(s);
      funcs, visited := TakeFrom(s, order[i], funcs, visited);
    }
    assert sources[..|sources|] == sources;
    VisitedGrows(sources, order, i);
  }

  lemma NothingTaken(sources: seq<Source>, order: seq<string>, path: string, paths: seq<string>)
    ensures Taken(sources[..0], order, path) == [] && Visited(sources[..0], paths) == {}
  {
  }

  lemma TakenNext(sources: seq<Source>, k: nat, order: seq<string>, path: string)
    requires k < |sources|
    ensures Taken(sources[..k + 1], order, path) == Taken(sources[..k], order, path) +
            (if FirstContaining(order, sources[k].key) == Some(path) then sources[k].value else [])
  {
    hide FirstContaining;
    assert sources[..k + 1][..k] == sources[..k];
  }

  lemma VisitedNext(sources: seq<Source>, k: nat, paths: seq<string>)
    requires k < |sources|
    ensures Visited(sources[..k + 1], paths) == Visited(sources[..k], paths) +
            (if FirstContaining(paths, sources[k].key).Some? then FuncSet(sources[k]) else {})
  {
    hide FirstContaining, FuncSet;
    assert sources[..k + 1][..k] == sources[..k];
  }

  lemma NoFuncs(s: Source)
    ensures FuncSet(s) == {} ==> s.value == []
  {
    assert s.value != [] ==> s.value[0] in FuncSet(s);
  }

  // The loop over the functions of one source
  method TakeFrom(s: Source, path: string, taken: seq<string>, before: set<string>)
    returns (funcs: seq<string>, visited: set<string>)
    requires forall i, j | 0 <= i < j < |s.value| :: s.value[i] != s.value[j]
    requires FuncSet(s) <= before || FuncSet(s) !! before
    ensures funcs == taken + (if Contains(path, s.key) && !(FuncSet(s) <= before) then s.value else [])
    ensures visited == before + (if Contains(path, s.key) then FuncSet(s) else {})
  {
    visited, funcs := before, taken;
    if Contains(path, s.key) {
      hide Contains;
      for n := 0 to |s.value|
        invariant visited == before + set f | f in s.value[..n]
        invariant funcs == taken + (if FuncSet(s) <= before then [] else s.value[..n])
      {
        var func := s.value[n];
        assert func in FuncSet(s) && func !in s.value[..n];
        assert s.value[..n + 1] == s.value[..n] + [func];
        if func !in visited {
          visited := visited + {func};
          funcs := funcs + [func];
        }
      }
      assert s.value[..|s.value|] == s.value;
    }
  }

  // ---- From functions to sources ----

  // The functions of a source get one more, behind the others; a new source comes last.
  function AddFunc(sources: seq<Source>, src: string, func: string): seq<Source> {
    var i := IndexOf(sources, src);
    Put(sources, src, (if i < |sources| then sources[i].value else []) + [func])
  }

  // The inverse of func_to_src
  function Invert(funcToSrc: seq<Item<string, string>>): seq<Source> {
    if funcToSrc == [] then []
    else
      var last := funcToSrc[|funcToSrc| - 1];
      AddFunc(Invert(funcToSrc[..|funcToSrc| - 1]), last.value, last.key)
  }

  method SrcToFuncs(funcToSrc: seq<Item<string, string>>) returns (sources: seq<Source>)
    ensures sources == Invert(funcToSrc)
  {
    sources := [];
    for k := 0 to |funcToSrc|
      invariant sources == Invert(funcToSrc[..k])
    {
      var func, src := funcToSrc[k].key, funcToSrc[k].value;
      ghost var before := sources;
      var i := IndexOf(sources, src);
      if i == |sources| {
        sources := sources + [Item(src, [])];
      }
      sources := sources[i := Item(src, sources[i].value + [func])];
      assert funcToSrc[..k + 1][..k] == funcToSrc[..k];
      assert sources == AddFunc(before, src, func);
    }
    assert funcToSrc[..|funcToSrc|] == funcToSrc;
  }

  // Some source with this text lists the function.
  ghost predicate Lists(sources: seq<Source>, src: string, func: string) {
    exists k :: 0 <= k < |sources| && sources[k].key == src && func in sources[k].value
  }

  ghost predicate Unlisted(sources: seq<Source>, func: string) {
    forall k | 0 <= k < |sources| :: func !in sources[k].value
  }

  lemma AddFuncKeepsOneSource(sources: seq<Source>, src: string, func: string)
    requires OneSourceEach(sources) && DistinctKeys(sources) && Unlisted(sources, func)
    ensures OneSourceEach(AddFunc(sources, src, func)) && DistinctKeys(AddFunc(sources, src, func))
  {
  }

  lemma AddFuncLists(sources: seq<Source>, src: string, func: string, s: string, f: string)
    requires DistinctKeys(sources)
    ensures Lists(AddFunc(sources, src, func), s, f) <==> Lists(sources, s, f) || (s == src && f == func)
  {
    var i, r := IndexOf(sources, src), AddFunc(sources, src, func);
    if s == src && f == func {
      assert r[i].key == src && func in r[i].value;
    }
    if Lists(sources, s, f) {
      var k :| 0 <= k < |sources| && sources[k].key == s && f in sources[k].value;
      assert r[k].key == s && f in r[k].value;
    }
  }

  /** Inverting a dict of functions lists every function under its source and nowhere else. */
  lemma {:induction false} InvertLists(funcToSrc: seq<Item<string, string>>)
    requires DistinctKeys(funcToSrc)
    ensures OneSourceEach(Invert(funcToSrc)) && DistinctKeys(Invert(funcToSrc))
    ensures forall s, f :: Lists(Invert(funcToSrc), s, f) <==> Item(f, s) in funcToSrc
  {
    hide AddFunc, OneSourceEach;
    if funcToSrc == [] {
      NothingListed();
    } else {
      var front, last := funcToSrc[..|funcToSrc| - 1], funcToSrc[|funcToSrc| - 1];
      InvertLists(front);
      var before := Invert(front);
      forall k | 0 <= k < |before| ensures last.key !in before[k].value {
        assert last.key in before[k].value ==> Lists(before, before[k].key, last.key);
      }
      AddFuncKeepsOneSource(before, last.value, last.key);
      forall s, f ensures Lists(Invert(funcToSrc), s, f) <==> Item(f, s) in funcToSrc {
        AddFuncLists(before, last.value, last.key, s, f);
        assert funcToSrc == front + [last];
      }
    }
  }

  lemma NothingListed()
    ensures OneSourceEach([])
  {
  }

  lemma OrderPermutes(paths: seq<string>)
    ensures multiset(Order(paths)) == multiset(paths) && |Order(paths)| == |paths|
    ensures Sorted(Descending, Order(paths))
    ensures Distinct(paths) ==> Distinct(Order(paths))
  {
    SortPermutes(Descending, paths);
    DescendingIsOrder();
    SortSorts(Descending, paths);
    if Distinct(paths) {
      DistinctCounts(paths);
      CountsDistinct(Order(paths));
    }
  }

  lemma {:induction false} DistinctCounts(s: seq<string>)
    requires Distinct(s)
    ensures forall x :: multiset(s)[x] <= 1
  {
    if s != [] {
      DistinctCounts(s[..|s| - 1]);
      assert s == s[..|s| - 1] + [s[|s| - 1]];
      assert s[|s| - 1] !in s[..|s| - 1];
    }
  }

  lemma CountsDistinct(s: seq<string>)
    requires forall x :: multiset(s)[x] <= 1
    ensures Distinct(s)
  {
    forall i, j | 0 <= i < j < |s| ensures s[i] != s[j] {
      assert s == s[..i] + [s[i]] + s[i + 1..j] + [s[j]] + s[j + 1..];
      assert multiset(s)[s[i]] <= 1;
    }
  }

  lemma {:induction false} VisitedNothing(sources: seq<Source>)
    ensures Visited(sources, []) == {}
  {
    if sources != [] {
      VisitedNothing(sources[..|sources| - 1]);
    }
  }

  lemma {:induction false} FirstContainingNext(order: seq<string>, i: nat, src: string)
    requires i < |order|
    ensures FirstContaining(order[..i + 1], src).Some? <==>
            FirstContaining(order[..i], src).Some? || Contains(order[i], src)
  {
    if i > 0 {
      assert order[..i + 1][1..] == order[1..][..i] && order[..i][1..] == order[1..][..i - 1];
      FirstContainingNext(order[1..], i - 1, src);
    }
  }

  // Path i is the first to contain a source if it does and none before it does.
  lemma {:induction false} FirstIs(order: seq<string>, i: nat, src: string)
    requires i < |order| && Distinct(order)
    ensures FirstContaining(order, src) == Some(order[i]) <==>
            Contains(order[i], src) && FirstContaining(order[..i], src).None?
  {
    if i > 0 {
      assert order[..i][1..] == order[1..][..i - 1];
      FirstIs(order[1..], i - 1, src);
    } else if !Contains(order[0], src) {
      FirstIsListed(order[1..], src);
    }
  }

  lemma {:induction false} FirstIsListed(order: seq<string>, src: string)
    ensures FirstContaining(order, src).Some? ==>
              FirstContaining(order, src).value in order && Contains(FirstContaining(order, src).value, src)
    ensures FirstContaining(order, src).None? ==> forall p | p in order :: !Contains(p, src)
  {
    if order != [] {
      FirstIsListed(order[1..], src);
    }
  }

  lemma {:induction false} VisitedMembers(sources: seq<Source>, paths: seq<string>, f: string)
    ensures f in Visited(sources, paths) <==>
            exists k :: 0 <= k < |sources| && f in sources[k].value && FirstContaining(paths, sources[k].key).Some?
  {
    hide FirstContaining;
    if sources != [] {
      var front := sources[..|sources| - 1];
      VisitedMembers(front, paths, f);
      assert forall k | 0 <= k < |front| :: front[k] == sources[k];
    }
  }

  // The functions of one source are visited all or none, whichever paths went before.
  lemma VisitedTogether(sources: seq<Source>, p: seq<string>, some: seq<Source>, q: seq<string>, k: nat)
    requires OneSourceEach(sources) && k < |sources| && some == sources[..k]
    ensures var visited := Visited(sources, p) + Visited(some, q);
      if FirstContaining(p, sources[k].key).Some? then FuncSet(sources[k]) <= visited
      else FuncSet(sources[k]) !! visited
  {
    hide FirstContaining;
    forall f | f in FuncSet(sources[k])
      ensures f !in Visited(some, q)
      ensures f in Visited(sources, p) <==> FirstContaining(p, sources[k].key).Some?
    {
      VisitedMembers(some, q, f);
      VisitedMembers(sources, p, f);
    }
  }

  lemma {:induction false} VisitedGrows(sources: seq<Source>, order: seq<string>, i: nat)
    requires i < |order|
    ensures Visited(sources, order[..i]) <= Visited(sources, order[..i + 1])
  {
    if sources != [] {
      VisitedGrows(sources[..|sources| - 1], order, i);
      FirstContainingNext(order, i, sources[|sources| - 1].key);
    }
  }

  lemma {:induction false} TakenMembers(sources: seq<Source>, order: seq<string>, path: string, f: string)
    ensures f in Taken(sources, order, path) <==>
            exists k ::
              0 <= k < |sources| && f in sources[k].value && FirstContaining(order, sources[k].key) == Some(path)
  {
    hide FirstContaining;
    if sources != [] {
      var front := sources[..|sources| - 1];
      TakenMembers(front, order, path, f);
      assert forall k | 0 <= k < |front| :: front[k] == sources[k];
    }
  }

  // ---- Innermost wins ----

  function Depth(path: string): nat {
    |Parse(path).parts|
  }

  // p is the deepest of the paths that contain the source.
  ghost predicate IsInnermost(paths: seq<string>, src: string, p: string) {
    p in paths && Contains(p, src) && forall q | q in paths && Contains(q, src) :: Depth(q) <= Depth(p)
  }

  // The sweep gives the source to the innermost path, or to none if none contains it.
  ghost predicate InnermostWins(paths: seq<string>, src: string) {
    match FirstContaining(Order(paths), src)
    case Some(p) => IsInnermost(paths, src, p)
    case None => forall p | p in paths :: !Contains(p, src)
  }

  // Whenever one listed path is an ancestor of another, some listed text of the inner path sorts
  // behind the text of the outer one.
  ghost predicate InnerSortsLater(paths: seq<string>) {
    forall p, q | p in paths && q in paths && Outer(p, q) :: SomeTextLater(paths, p, q)
  }

  ghost predicate SomeTextLater(paths: seq<string>, p: string, q: string) {
    exists r :: r in paths && Parse(r) == Parse(q) && TextLess(p, r)
  }

  // p is a proper ancestor of q.
  predicate Outer(p: string, q: string) {
    Parse(p).root == Parse(q).root && Parse(p).parts < Parse(q).parts
  }

  lemma {:induction false} FirstAt(order: seq<string>, src: string) returns (i: nat)
    requires FirstContaining(order, src).Some?
    ensures i < |order| && FirstContaining(order, src) == Some(order[i]) && Contains(order[i], src)
    ensures forall j | 0 <= j < i :: !Contains(order[j], src)
  {
    hide Contains;
    i := 0;
    if !Contains(order[0], src) {
      var k := FirstAt(order[1..], src);
      i := k + 1;
      forall j | 0 <= j < i ensures !Contains(order[j], src) {
        assert j > 0 ==> order[j] == order[1..][j - 1];
      }
    }
  }

  // Of two paths containing one source, the shallower is an ancestor of the deeper.
  lemma ContainersNest(p: string, q: string, src: string)
    requires Contains(p, src) && Contains(q, src)
    ensures Depth(p) < Depth(q) ==> Outer(p, q)
    ensures Depth(p) == Depth(q) ==> Parse(p) == Parse(q)
  {
    hide Parse;
    var a, b, s := Parse(p).parts, Parse(q).parts, Parse(src).parts;
    assert a == s[..|a|] && b == s[..|b|];
  }

  // What the sweep's order says about the first path that contains a source
  lemma FirstSortsLast(paths: seq<string>, src: string, q: string) returns (p: string)
    requires q in paths && Contains(q, src)
    ensures FirstContaining(Order(paths), src) == Some(p) && p in paths && Contains(p, src) && !TextLess(p, q)
  {
    var order := Order(paths);
    OrderPermutes(paths);
    FirstIsListed(order, src);
    assert q in multiset(paths) && q in multiset(order);
    hide Contains, Order;
    var i := FirstAt(order, src);
    p := order[i];
    assert p in multiset(order) && p in multiset(paths);
    var j :| 0 <= j < |order| && order[j] == q;
    SortedPair(order, i, j);
    TextTrichotomy(p, q);
  }

  lemma SortedPair(order: seq<string>, i: nat, j: nat)
    requires Sorted(Descending, order) && i < |order| && j < |order|
    ensures i < j ==> !TextLess(order[i], order[j])
  {
    if i < j {
      assert Descending(order[i], order[j]);
    }
  }

  lemma NoneFirst(paths: seq<string>, src: string)
    ensures FirstContaining(Order(paths), src).None? ==> forall p | p in paths :: !Contains(p, src)
  {
    OrderPermutes(paths);
    FirstIsListed(Order(paths), src);
    forall p | p in paths ensures p in Order(paths) {
      assert p in multiset(paths) && p in multiset(Order(paths));
    }
  }

  lemma FirstIsPath(paths: seq<string>, src: string)
    ensures var first := FirstContaining(Order(paths), src);
      first.Some? ==> first.value in paths && Contains(first.value, src)
  {
    OrderPermutes(paths);
    FirstIsListed(Order(paths), src);
    forall p | p in Order(paths) ensures p in paths {
      assert p in multiset(Order(paths)) && p in multiset(paths);
    }
  }

  lemma LaterMeansInnermost(paths: seq<string>, src: string)
    requires InnerSortsLater(paths)
    ensures InnermostWins(paths, src)
  {
    NoneFirst(paths, src);
    FirstIsPath(paths, src);
    hide Order, FirstContaining, Parse, Contains;
    if FirstContaining(Order(paths), src).Some? {
      var p := FirstContaining(Order(paths), src).value;
      forall q | q in paths && Contains(q, src) ensures Depth(q) <= Depth(p) {
        ContainersNest(p, q, src);
        if Depth(p) < Depth(q) {
          assert SomeTextLater(paths, p, q);
          var r :| r in paths && Parse(r) == Parse(q) && TextLess(p, r);
          SameContains(r, q, src);
          var first := FirstSortsLast(paths, src, r);
        }
      }
    }
  }

  lemma SameContains(p: string, q: string, src: string)
    requires Parse(p) == Parse(q)
    ensures Contains(p, src) == Contains(q, src) && Depth(p) == Depth(q) && Contains(q, q)
  {
  }

  lemma InnermostMeansLater(paths: seq<string>, p: string, q: string)
    requires p in paths && q in paths && Outer(p, q) && InnermostWins(paths, q)
    ensures SomeTextLater(paths, p, q)
  {
    assert Contains(p, q) && Contains(q, q);
    var r := FirstSortsLast(paths, q, p);
    hide Order, FirstContaining;
    assert IsInnermost(paths, q, r);
    ContainersNest(r, q, q);
    TextTrichotomy(r, p);
    hide Parse;
  }

  /** For any texts, the sweep gives every source to the innermost listed path, and to none exactly
      if no path contains it, if and only if every inner path has a listed text that sorts behind
      the texts of its listed ancestors. */
  lemma InnermostWinsIff(paths: seq<string>)
    ensures (forall src :: InnermostWins(paths, src)) <==> InnerSortsLater(paths)
  {
    hide InnermostWins, SomeTextLater, Parse;
    if InnerSortsLater(paths) {
      forall src ensures InnermostWins(paths, src) {
        LaterMeansInnermost(paths, src);
      }
    }
    if forall src :: InnermostWins(paths, src) {
      forall p, q | p in paths && q in paths && Outer(p, q) ensures SomeTextLater(paths, p, q) {
        assert InnermostWins(paths, q);
        InnermostMeansLater(paths, p, q);
      }
    }
  }

  // p is the listed text of its path that the sweep comes to first.
  ghost predicate FirstText(paths: seq<string>, p: string) {
    forall r | r in paths && Parse(r) == Parse(p) :: !TextLess(p, r)
  }

  lemma FirstIsFirstText(paths: seq<string>, src: string, p: string)
    requires p in paths && InnermostWins(paths, src)
    ensures FirstContaining(Order(paths), src) == Some(p) <==> IsInnermost(paths, src, p) && FirstText(paths, p)
  {
    NoneFirst(paths, src);
    FirstIsPath(paths, src);
    hide Order, FirstContaining, Parse, Contains;
    if FirstContaining(Order(paths), src) == Some(p) {
      forall r | r in paths && Parse(r) == Parse(p) ensures !TextLess(p, r) {
        SameContains(r, p, src);
        var first := FirstSortsLast(paths, src, r);
      }
    } else if IsInnermost(paths, src, p) && FirstText(paths, p) {
      var first := FirstSortsLast(paths, src, p);
      ContainersNest(first, p, src);
      TextTrichotomy(first, p);
    }
  }

  /** Then a function is in the list of a path exactly if the path is the innermost listed one
      containing the function's source, by the text of it that the sweep comes to first. */
  lemma FunctionGoesToInnermost(funcToSrc: seq<Item<string, string>>, paths: seq<string>, p: string, f: string)
    requires DistinctKeys(funcToSrc) && InnerSortsLater(paths) && p in paths
    ensures f in Taken(Invert(funcToSrc), Order(paths), p) <==>
            exists src :: Item(f, src) in funcToSrc && IsInnermost(paths, src, p) && FirstText(paths, p)
  {
    hide Taken, Order, IsInnermost, FirstText, InnerSortsLater, Invert, FirstContaining, DistinctKeys;
    var sources := Invert(funcToSrc);
    InvertLists(funcToSrc);
    TakenMembers(sources, Order(paths), p, f);
    forall k | 0 <= k < |sources| && f in sources[k].value
      ensures Item(f, sources[k].key) in funcToSrc
      ensures FirstContaining(Order(paths), sources[k].key) == Some(p) <==>
              IsInnermost(paths, sources[k].key, p) && FirstText(paths, p)
    {
      assert Lists(sources, sources[k].key, f);
      LaterMeansInnermost(paths, sources[k].key);
      FirstIsFirstText(paths, sources[k].key, p);
    }
    forall src | Item(f, src) in funcToSrc
      ensures exists k :: 0 <= k < |sources| && f in sources[k].value && sources[k].key == src
    {
      assert Lists(sources, src, f);
    }
  }

  /** The last two steps of get_path_to_functions_map. */
  method PathsOfFunctions(funcToSrc: seq<Item<string, string>>, paths: seq<string>)
    returns (m: map<string, seq<string>>)
    requires DistinctKeys(funcToSrc) && Distinct(paths)
    ensures m.Keys == set p | p in paths
    ensures forall p | p in paths :: m[p] == Taken(Invert(funcToSrc), Order(paths), p)
  {
    var sources := SrcToFuncs(funcToSrc);
    InvertLists(funcToSrc);
    m := PathToFuncs(sources, paths);
  }

  // ---- Canonical texts ----

  // If the relative root "." is listed, no other relative path sorts before it.
  ghost predicate RootSortsFirst(paths: seq<string>) {
    "." in paths ==> forall p | p in paths && p != "." && Parse(p).root == "" :: p == "" || p[0] >= '.'
  }

  lemma {:induction false} KeepNonempty(pieces: seq<string>)
    ensures forall i | 0 <= i < |Keep(pieces)| :: Keep(pieces)[i] != ""
  {
    if pieces != [] {
      KeepNonempty(pieces[1..]);
    }
  }

  lemma {:induction false} JoinPrefix(a: seq<string>, b: seq<string>)
    requires a < b && forall i | 0 <= i < |b| :: b[i] != ""
    ensures JoinParts(a) < JoinParts(b)
  {
    var front := b[..|b| - 1];
    if a == front {
      assert |b| > 1 ==> JoinParts(b) == JoinParts(a) + "/" + b[|b| - 1];
    } else {
      JoinPrefix(a, front);
      assert JoinParts(b) == JoinParts(front) + "/" + b[|b| - 1];
    }
  }

  lemma DotIsRoot()
    ensures Parse(".") == Path("", []) && Canonical(".")
  {
    assert Pieces(".") == ["."] by {
      assert "."[1..] == "" && Pieces("") == [""];
      assert ['.'] + "" == ".";
    }
    assert Keep(["."]) == Keep([]) == [];
  }

  // An outer path comes before an inner one in the alphabet, except that "." need not.
  lemma OuterIsLess(a: string, b: string)
    requires Canonical(a) && Canonical(b) && Outer(a, b)
    ensures a == "." || a < b
    ensures b != "" && (a == "." ==> (TextLess(a, b) <==> b[0] >= '.'))
  {
    var pa, pb := Parse(a).parts, Parse(b).parts;
    KeepNonempty(Pieces(b));
    JoinPrefix(pa, pb);
    DotIsRoot();
    assert b != ".";
    hide Parse;
    if a == "." && b[0] == '.' {
      assert b == ['.'] + b[1..];
    }
  }

  lemma SameParseSamePath(a: string, b: string)
    requires Canonical(a) && Canonical(b) && Parse(a) == Parse(b)
    ensures a == b
  {
  }

  lemma DotIsOuter(paths: seq<string>, p: string)
    requires (forall q | q in paths :: Canonical(q)) && "." in paths && InnerSortsLater(paths)
    requires p in paths && p != "." && Parse(p).root == ""
    ensures p == "" || p[0] >= '.'
  {
    DotIsRoot();
    hide Parse, TextLess;
    if Parse(p).parts == [] {
      SameParseSamePath(p, ".");
    } else {
      OuterIsLess(".", p);
      assert SomeTextLater(paths, ".", p);
      var r :| r in paths && Parse(r) == Parse(p) && TextLess(".", r);
      SameParseSamePath(r, p);
    }
  }

  /** For texts as pathlib prints them, that is so if and only if "." is not listed or no other
      relative path sorts before it. */
  lemma CanonicalSortsLaterIff(paths: seq<string>)
    requires forall p | p in paths :: Canonical(p)
    ensures InnerSortsLater(paths) <==> RootSortsFirst(paths)
  {
    DotIsRoot();
    hide Parse, Canonical, TextLess, SomeTextLater;
    if InnerSortsLater(paths) && "." in paths {
      forall p | p in paths && p != "." && Parse(p).root == "" ensures p == "" || p[0] >= '.' {
        DotIsOuter(paths, p);
      }
    }
    if RootSortsFirst(paths) {
      forall p, q | p in paths && q in paths && Outer(p, q) ensures SomeTextLater(paths, p, q) {
        OuterSortsFirst(paths, p, q);
      }
    }
  }

  lemma OuterSortsFirst(paths: seq<string>, p: string, q: string)
    requires (forall r | r in paths :: Canonical(r)) && RootSortsFirst(paths)
    requires p in paths && q in paths && Outer(p, q)
    ensures SomeTextLater(paths, p, q)
  {
    DotIsRoot();
    OuterIsLess(p, q);
    hide Parse, Canonical;
    if p != "." {
      PrefixIsLess(p, q);
    }
  }

  lemma DotSlashSame(q: string)
    requires Root(q) == ""
    ensures Parse("./" + q) == Parse(q)
  {
    var tail := "/" + q;
    assert "./" + q == ['.'] + tail && tail[1..] == q && (['.'] + tail)[1..] == tail;
    assert Pieces(tail) == [""] + Pieces(q) && ['.'] + "" == ".";
    assert Pieces(['.'] + tail) == ["."] + Pieces(q);
    assert (["."] + Pieces(q))[1..] == Pieces(q);
    hide Pieces;
    assert Keep(["."] + Pieces(q)) == Keep(Pieces(q));
  }

  /** Texts that are not canonical can lose: a relative path whose text sorts behind "." takes what
      lies under any inner path that is written with "./" in front. */
  lemma DottedTextLoses(p: string, q: string)
    requires Outer(p, q) && Root(p) == "" && p != "" && p[0] > '.'
    ensures Outer(p, "./" + q) && !InnerSortsLater([p, "./" + q])
  {
    DotSlashSame(q);
    var dotted := "./" + q;
    TextTrichotomy(p, p);
    assert dotted[0] == '.' && !TextLess(p, dotted);
    assert p in [p, dotted] && dotted in [p, dotted];
    assert !SomeTextLater([p, dotted], p, dotted);
  }

  // ---- Paths and texts ----

  /** Texts are ordered by the first character in which they differ, a text before its extensions. */
  lemma {:induction false} TextLessIs(a: string, b: string)
    ensures TextLess(a, b) <==>
            a < b || exists i :: 0 <= i < |a| && i < |b| && a[..i] == b[..i] && a[i] < b[i]
  {
    if a != "" && b != "" && a[0] == b[0] {
      var c, d := a[1..], b[1..];
      TextLessIs(c, d);
      assert a == [a[0]] + c && b == [b[0]] + d;
      assert a < b <==> c < d;
      if i :| 0 <= i < |c| && i < |d| && c[..i] == d[..i] && c[i] < d[i] {
        assert a[..i + 1] == [a[0]] + c[..i] && b[..i + 1] == [b[0]] + d[..i] && a[i + 1] < b[i + 1];
      }
      if i :| 0 <= i < |a| && i < |b| && a[..i] == b[..i] && a[i] < b[i] {
        assert i > 0 && c[..i - 1] == a[..i][1..] && d[..i - 1] == b[..i][1..] && c[i - 1] < d[i - 1];
      }
    } else if a != "" && b != "" {
      assert a[..0] == b[..0];
      if i :| 0 <= i < |a| && i < |b| && a[..i] == b[..i] && a[i] < b[i] {
        assert i > 0 ==> a[..i][0] == b[..i][0];
      }
    }
  }

  // A name between slashes
  predicate IsPart(part: string) {
    part != "" && part != "." && forall i | 0 <= i < |part| :: part[i] != '/'
  }

  // What pathlib makes of a text
  predicate Proper(p: Path) {
    p.root in {"", "/", "//"} && forall i | 0 <= i < |p.parts| :: IsPart(p.parts[i])
  }

  lemma {:induction false} PiecesHaveNoSlash(s: string)
    ensures forall i, j | 0 <= i < |Pieces(s)| && 0 <= j < |Pieces(s)[i]| :: Pieces(s)[i][j] != '/'
  {
    if s != "" {
      PiecesHaveNoSlash(s[1..]);
    }
  }

  lemma {:induction false} KeptAreParts(pieces: seq<string>)
    requires forall i, j | 0 <= i < |pieces| && 0 <= j < |pieces[i]| :: pieces[i][j] != '/'
    ensures forall i | 0 <= i < |Keep(pieces)| :: IsPart(Keep(pieces)[i])
  {
    if pieces != [] {
      KeptAreParts(pieces[1..]);
    }
  }

  lemma ParsedIsProper(s: string)
    ensures Proper(Parse(s))
  {
    PiecesHaveNoSlash(s);
    KeptAreParts(Pieces(s));
  }

  lemma {:induction false} PiecesAtSlash(a: string, b: string)
    ensures Pieces(a + "/" + b) == Pieces(a) + Pieces(b)
  {
    if a == "" {
      assert a + "/" + b == "/" + b && ("/" + b)[1..] == b;
    } else {
      assert (a + "/" + b)[1..] == a[1..] + "/" + b && (a + "/" + b)[0] == a[0];
      PiecesAtSlash(a[1..], b);
    }
  }

  lemma {:induction false} PiecesOfPart(part: string)
    requires forall i | 0 <= i < |part| :: part[i] != '/'
    ensures Pieces(part) == [part]
  {
    if part != "" {
      PiecesOfPart(part[1..]);
      assert [part[0]] + part[1..] == part;
    }
  }

  lemma {:induction false} PiecesOfJoin(parts: seq<string>)
    requires parts != [] && forall i | 0 <= i < |parts| :: IsPart(parts[i])
    ensures Pieces(JoinParts(parts)) == parts && JoinParts(parts) != "" && JoinParts(parts)[0] != '/'
  {
    var front, last := parts[..|parts| - 1], parts[|parts| - 1];
    PiecesOfPart(last);
    hide Pieces;
    if |parts| > 1 {
      PiecesOfJoin(front);
      PiecesAtSlash(JoinParts(front), last);
      assert parts == front + [last];
    } else {
      assert parts == [last];
    }
  }

  lemma {:induction false} PartsStay(parts: seq<string>)
    requires forall i | 0 <= i < |parts| :: IsPart(parts[i])
    ensures Keep(parts) == parts
  {
    if parts != [] {
      PartsStay(parts[1..]);
    }
  }

  lemma RootedPieces(root: string, text: string)
    requires root in {"", "/", "//"} && (text == "" || text[0] != '/')
    ensures Root(root + text) == root && Keep(Pieces(root + text)) == Keep(Pieces(text))
  {
    var one := "/" + text;
    assert one[1..] == text && ("//" + text)[1..] == one;
    assert Pieces(one) == [""] + Pieces(text) && Pieces("//" + text) == [""] + Pieces(one);
    assert ([""] + Pieces(text))[1..] == Pieces(text) && ([""] + Pieces(one))[1..] == Pieces(one);
    assert "" + text == text;
  }

  /** A path is what its text says: parsing the text of a path gives the path back, so every text has a
      canonical one for the same path. */
  lemma ParseRender(p: Path)
    requires Proper(p)
    ensures Parse(Render(p)) == p
  {
    if p.parts == [] {
      DotIsRoot();
      RootedPieces(p.root, "");
      assert p.root + JoinParts([]) == p.root + "" && Pieces("") == [""] && Keep([""]) == [];
    } else {
      PiecesOfJoin(p.parts);
      PartsStay(p.parts);
      RootedPieces(p.root, JoinParts(p.parts));
    }
  }

  lemma RenderIsCanonical(s: string)
    ensures Canonical(Render(Parse(s))) && Parse(Render(Parse(s))) == Parse(s)
  {
    ParsedIsProper(s);
    ParseRender(Parse(s));
  }

  /** A path contains the paths that begin with its root and parts, itself included. */
  lemma ContainsIsAncestor(p: Path, q: Path)
    requires Proper(p) && Proper(q)
    ensures Contains(Render(p), Render(q)) <==> p.root == q.root && p.parts <= q.parts
  {
    ParseRender(p);
    ParseRender(q);
  }

  // ---- The order of the functions of a source ----

  function FuncsOf(funcToSrc: seq<Item<string, string>>, src: string): seq<string> {
    if funcToSrc == [] then []
    else
      var last := funcToSrc[|funcToSrc| - 1];
      FuncsOf(funcToSrc[..|funcToSrc| - 1], src) + (if last.value == src then [last.key] else [])
  }

  /** The functions of a source are listed in the order of the dict. */
  lemma {:induction false} InvertKeepsOrder(funcToSrc: seq<Item<string, string>>, src: string)
    requires DistinctKeys(funcToSrc)
    ensures var sources := Invert(funcToSrc);
      var i := IndexOf(sources, src);
      FuncsOf(funcToSrc, src) == if i < |sources| then sources[i].value else []
  {
    if funcToSrc != [] {
      var front, last := funcToSrc[..|funcToSrc| - 1], funcToSrc[|funcToSrc| - 1];
      InvertKeepsOrder(front, src);
      InvertLists(front);
      InvertLists(funcToSrc);
      hide Lists, OneSourceEach;
      AddFuncAt(Invert(front), last.value, last.key, src);
    }
  }

  lemma AddFuncAt(sources: seq<Source>, src: string, func: string, other: string)
    requires DistinctKeys(sources)
    ensures var r := AddFunc(sources, src, func);
      var i, j := IndexOf(sources, other), IndexOf(r, other);
      (if j < |r| then r[j].value else []) ==
      (if i < |sources| then sources[i].value else []) + (if src == other then [func] else [])
  {
    var r := AddFunc(sources, src, func);
    var i, j, k := IndexOf(sources, other), IndexOf(r, other), IndexOf(sources, src);
    assert r[k].key == src;
    assert i < |sources| ==> r[i].key == other;
    assert j < |r| && j != k ==> sources[j].key == other;
  }
}
