/** How get_path_to_functions_map of tools/empath-split.py finds the source file of a function:
    it walks down from the last address of the body until the source map names a source. */
module AddressWalk {
  import opened Wrappers
  import opened OrderedDict
  import opened SourceMap
  import opened Utils
  import opened Vlq

  // The file name behind an index of the map's sources table
  type Names = int -> string

  // A function body: its address and size in the wasm file
  datatype Func = Func(name: string, offset: nat, size: nat)

  // `if loc.source`: neither missing nor empty
  predicate Sourced(names: Names, loc: Location) {
    loc.source.Some? && names(loc.source.value) != ""
  }

  predicate Settled(names: Names, loc: Option<Location>) {
    loc.None? || Sourced(names, loc.value)
  }

  function Look(es: seq<Entry>, addr: int, lower: int): Option<Location> {
    Answer(Python, Floor(es, addr), Some(lower))
  }

  // The while loop, entered with addr above the function's offset
  function Walk(es: seq<Entry>, names: Names, lower: int, addr: int): Option<Location>
    requires addr > lower
    decreases addr - lower
  {
    var loc := Look(es, addr, lower);
    if Settled(names, loc) || addr - 1 == lower then loc else Walk(es, names, lower, addr - 1)
  }

  // The variable loc: unbound until some walk takes a step, and kept from one function to the next
  datatype Carried = Unbound | Bound(loc: Option<Location>)

  // loc after the walk of one function; a body of fewer than two bytes takes no step.
  function AfterWalk(es: seq<Entry>, names: Names, before: Carried, f: Func): Carried {
    if f.size >= 2 then Bound(Walk(es, names, f.offset, f.offset + f.size - 1)) else before
  }

  // The source recorded for a function; Failure is the NameError for an unbound loc.
  function Recorded(names: Names, loc: Carried): Result<Option<string>, ()> {
    match loc
    case Unbound => Failure(())
    case Bound(l) =>
      if l.Some? && Sourced(names, l.value) then Success(Some(NormalizePath(names(l.value.source.value))))
      else Success(None)
  }

  // func_to_src, later functions of the same name replacing earlier ones
  function FuncToSrc(es: seq<Entry>, names: Names, before: Carried, funcs: seq<Func>,
                     done: seq<Item<string, string>>): Result<seq<Item<string, string>>, ()>
    decreases |funcs|
  {
    if funcs == [] then Success(done)
    else
      var loc := AfterWalk(es, names, before, funcs[0]);
      match Recorded(names, loc)
      case Failure(_) => Failure(())
      case Success(src) =>
        FuncToSrc(es, names, loc, funcs[1..], if src.Some? then Put(done, funcs[0].name, src.value) else done)
  }

  method WalkFunction(sm: WasmSourceMap, names: Names, before: Carried, f: Func) returns (loc: Carried)
    requires sm.Valid() && sm.lang == Python
    ensures loc == AfterWalk(sm.entries, names, before, f)
  {
    loc := before;
    var addr: int := f.offset + f.size - 1;
    while addr > f.offset
      invariant f.size < 2 ==> addr <= f.offset && loc == before
      invariant f.size >= 2 && addr > f.offset ==>
                  AfterWalk(sm.entries, names, before, f) == Bound(Walk(sm.entries, names, f.offset, addr))
      invariant f.size >= 2 && addr <= f.offset ==> loc == AfterWalk(sm.entries, names, before, f)
      decreases addr - f.offset
    {
      var l := sm.LookupLocation(addr, Some(f.offset));
      loc := Bound(l);
      if l.None? || (l.value.source.Some? && names(l.value.source.value) != "") {
        break;
      }
      addr := addr - 1;
    }
  }

  method FunctionSources(sm: WasmSourceMap, names: Names, funcs: seq<Func>)
    returns (r: Result<seq<Item<string, string>>, ()>)
    requires sm.Valid() && sm.lang == Python
    ensures r == FuncToSrc(sm.entries, names, Unbound, funcs, [])
  {
    var loc := Unbound;
    var funcToSrc: seq<Item<string, string>> := [];
    assert funcs[0..] == funcs;
    for i := 0 to |funcs|
      invariant FuncToSrc(sm.entries, names, Unbound, funcs, []) ==
                FuncToSrc(sm.entries, names, loc, funcs[i..], funcToSrc)
    {
      assert funcs[i..][1..] == funcs[i + 1..];
      loc := WalkFunction(sm, names, loc, funcs[i]);
      if loc.Unbound? {
        return Failure(());
      }
      if loc.loc.Some? && Sourced(names, loc.loc.value) {
        funcToSrc := Put(funcToSrc, funcs[i].name, NormalizePath(names(loc.loc.value.source.value)));
      }
    }
    r := Success(funcToSrc);
  }

  // ---- What the walk finds ----

  // Offset o is what the walk from last down to above lower looks for: the greatest sourced
  // mapping of the body; one at the very start of the body shows only if none follows it at once.
  ghost predicate IsTarget(m: map<int, Location>, names: Names, lower: int, last: int, o: int) {
    && lower <= o <= last && o in m && Sourced(names, m[o])
    && (o == lower ==> lower + 1 !in m)
    && (forall p | p in m && o < p <= last :: !Sourced(names, m[p]))
  }

  ghost predicate HasTarget(m: map<int, Location>, names: Names, lower: int, last: int) {
    exists o :: IsTarget(m, names, lower, last, o)
  }

  // The walk's answer is the target's location if there is a target, and has no source otherwise.
  ghost predicate WalkIsRight(es: seq<Entry>, names: Names, lower: int, last: int)
    requires last > lower
  {
    var m, loc := Mappings(es), Walk(es, names, lower, last);
    && (loc.Some? && Sourced(names, loc.value) <==> HasTarget(m, names, lower, last))
    && (forall o | IsTarget(m, names, lower, last, o) :: loc == Some(m[o]))
  }

  lemma SourcedAtOnce(es: seq<Entry>, names: Names, lower: int, last: int)
    requires last > lower > 0 && Settled(names, Look(es, last, lower))
    ensures WalkIsRight(es, names, lower, last)
  {
    var m := Mappings(es);
    FloorInMappings(es, last);
    hide Mappings, Floor;
    var loc := Look(es, last, lower);
    assert Walk(es, names, lower, last) == loc;
    if loc.Some? {
      assert IsTarget(m, names, lower, last, Floor(es, last).value.offset);
    }
    forall o | IsTarget(m, names, lower, last, o) ensures loc == Some(m[o]) {
      assert o in m && o <= last;
    }
  }

  lemma LastStep(es: seq<Entry>, names: Names, lower: int)
    requires lower > 0 && !Settled(names, Look(es, lower + 1, lower))
    ensures WalkIsRight(es, names, lower, lower + 1)
  {
    FloorInMappings(es, lower + 1);
    hide Mappings, Floor;
  }

  lemma SameTargets(es: seq<Entry>, names: Names, lower: int, last: int, o: int)
    requires last - 1 > lower > 0 && !Settled(names, Look(es, last, lower))
    ensures IsTarget(Mappings(es), names, lower, last, o) <==> IsTarget(Mappings(es), names, lower, last - 1, o)
  {
    FloorInMappings(es, last);
    hide Mappings, Floor;
  }

  lemma {:induction false} WalkFindsTarget(es: seq<Entry>, names: Names, lower: int, last: int)
    requires last > lower > 0
    ensures WalkIsRight(es, names, lower, last)
    decreases last - lower
  {
    if Settled(names, Look(es, last, lower)) {
      SourcedAtOnce(es, names, lower, last);
    } else if last - 1 == lower {
      LastStep(es, names, lower);
    } else {
      var prev := last - 1;
      WalkFindsTarget(es, names, lower, prev);
      var m := Mappings(es);
      forall o ensures IsTarget(m, names, lower, last, o) <==> IsTarget(m, names, lower, prev, o) {
        SameTargets(es, names, lower, last, o);
      }
      SameTargetsSameAnswer(es, names, lower, last, prev);
    }
  }

  lemma SameTargetsSameAnswer(es: seq<Entry>, names: Names, lower: int, last: int, prev: int)
    requires last > prev > lower && WalkIsRight(es, names, lower, prev)
    requires Walk(es, names, lower, last) == Walk(es, names, lower, prev)
    requires forall o ::
      IsTarget(Mappings(es), names, lower, last, o) <==> IsTarget(Mappings(es), names, lower, prev, o)
    ensures WalkIsRight(es, names, lower, last)
  {
    hide Mappings, Walk, IsTarget;
    var m := Mappings(es);
    if o :| IsTarget(m, names, lower, last, o) {
      assert IsTarget(m, names, lower, prev, o);
    }
    if o :| IsTarget(m, names, lower, prev, o) {
      assert IsTarget(m, names, lower, last, o);
    }
  }

  // Offset o is the greatest with a source after lower and up to last.
  ghost predicate IsGreatest(m: map<int, Location>, names: Names, lower: int, last: int, o: int) {
    && lower < o <= last && o in m && Sourced(names, m[o])
    && (forall p | p in m && o < p <= last :: !Sourced(names, m[p]))
  }

  // No mapping from lower to last names a file.
  ghost predicate Sourceless(m: map<int, Location>, names: Names, lower: int, last: int) {
    forall o | o in m && lower <= o <= last :: m[o].source == None || names(m[o].source.value) == ""
  }

  /** For a body of at least two bytes at a nonzero offset: if a sourced mapping lies strictly
      after the offset and within the body, the function gets the source of the greatest such
      mapping; if every mapping in the body is without a source, or has an empty one, it gets none;
      and it gets one exactly if the body has a target. */
  lemma WalkRecordsGreatestSource(es: seq<Entry>, names: Names, before: Carried, f: Func, last: int)
    requires f.offset > 0 && f.size >= 2 && last == f.offset + f.size - 1
    ensures Recorded(names, AfterWalk(es, names, before, f)).Success?
    ensures var m, src := Mappings(es), Recorded(names, AfterWalk(es, names, before, f)).value;
      && (src.Some? <==> HasTarget(m, names, f.offset, last))
      && (forall o | IsGreatest(m, names, f.offset, last, o) ::
            src == Some(NormalizePath(names(m[o].source.value))))
      && (Sourceless(m, names, f.offset, last) ==> src == None)
  {
    var m := Mappings(es);
    WalkFindsTarget(es, names, f.offset, last);
    assert AfterWalk(es, names, before, f) == Bound(Walk(es, names, f.offset, last));
    hide Mappings, Walk, AfterWalk;
    forall o | IsGreatest(m, names, f.offset, last, o)
      ensures Recorded(names, AfterWalk(es, names, before, f)).value == Some(NormalizePath(names(m[o].source.value)))
    {
      assert IsTarget(m, names, f.offset, last, o);
    }
  }

  /** A body of fewer than two bytes, which no valid module has, is given whatever the function
      before it was given, whatever its own mappings say. */
  lemma TinyBodyTakesPrevious(es: seq<Entry>, names: Names, before: Carried, f: Func)
    requires f.size < 2
    ensures Recorded(names, AfterWalk(es, names, before, f)) == Recorded(names, before)
  {
  }

  lemma {:induction false} BoundNeverFails(es: seq<Entry>, names: Names, before: Carried, funcs: seq<Func>,
                                           done: seq<Item<string, string>>)
    requires before.Bound? && DistinctKeys(done)
    ensures var r := FuncToSrc(es, names, before, funcs, done);
      r.Success? && DistinctKeys(r.value)
    decreases |funcs|
  {
    hide Walk, NormalizePath, Put;
    if funcs != [] {
      var loc := AfterWalk(es, names, before, funcs[0]);
      assert loc.Bound?;
      var src := Recorded(names, loc).value;
      if src.Some? {
        PutMembers(done, funcs[0].name, src.value, Item(funcs[0].name, src.value));
        BoundNeverFails(es, names, loc, funcs[1..], Put(done, funcs[0].name, src.value));
      } else {
        BoundNeverFails(es, names, loc, funcs[1..], done);
      }
    }
  }

  /** The functions get their sources, each function once, unless the very first body has fewer than
      two bytes: then, and only then, the location is read before it is assigned. */
  lemma FailsIffFirstIsTiny(es: seq<Entry>, names: Names, funcs: seq<Func>)
    ensures var r := FuncToSrc(es, names, Unbound, funcs, []);
      && (r.Failure? <==> funcs != [] && funcs[0].size < 2)
      && (r.Success? ==> DistinctKeys(r.value))
  {
    hide Walk, NormalizePath, Put;
    if funcs != [] && funcs[0].size >= 2 {
      var loc := AfterWalk(es, names, Unbound, funcs[0]);
      var src := Recorded(names, loc).value;
      if src.Some? {
        PutMembers([], funcs[0].name, src.value, Item(funcs[0].name, src.value));
        BoundNeverFails(es, names, loc, funcs[1..], Put([], funcs[0].name, src.value));
      } else {
        BoundNeverFails(es, names, loc, funcs[1..], []);
      }
    }
  }

  // ---- What the dict holds ----

  // The source of a function with a body of at least two bytes
  function SourceOf(es: seq<Entry>, names: Names, f: Func): Option<string>
    requires f.size >= 2
  {
    Recorded(names, Bound(Walk(es, names, f.offset, f.offset + f.size - 1))).value
  }

  predicate Bodies(funcs: seq<Func>) {
    forall i | 0 <= i < |funcs| :: funcs[i].size >= 2
  }

  // No function of this name has a source.
  predicate NoSource(es: seq<Entry>, names: Names, funcs: seq<Func>, n: string)
    requires Bodies(funcs)
  {
    forall i | 0 <= i < |funcs| && funcs[i].name == n :: SourceOf(es, names, funcs[i]) == None
  }

  // The last function of this name that has a source has this one.
  predicate LastSource(es: seq<Entry>, names: Names, funcs: seq<Func>, n: string, src: string)
    requires Bodies(funcs)
  {
    funcs != [] &&
    if NoSource(es, names, funcs[1..], n) then funcs[0].name == n && SourceOf(es, names, funcs[0]) == Some(src)
    else LastSource(es, names, funcs[1..], n, src)
  }

  lemma {:induction false} FuncToSrcHolds(es: seq<Entry>, names: Names, before: Carried, funcs: seq<Func>,
                                          done: seq<Item<string, string>>, n: string, src: string)
    requires Bodies(funcs) && DistinctKeys(done)
    ensures var r := FuncToSrc(es, names, before, funcs, done);
      && r.Success?
      && (Item(n, src) in r.value <==>
            LastSource(es, names, funcs, n, src) || (Item(n, src) in done && NoSource(es, names, funcs, n)))
    decreases |funcs|
  {
    if funcs != [] {
      var f, rest := funcs[0], funcs[1..];
      var loc := AfterWalk(es, names, before, f);
      assert Recorded(names, loc).Success? && Recorded(names, loc).value == SourceOf(es, names, f);
      NoSourceSplits(es, names, funcs, n);
      var next := SourceOf(es, names, f);
      hide AfterWalk, Recorded, Walk, Put, SourceOf, NoSource;
      if next.Some? {
        PutMembers(done, f.name, next.value, Item(n, src));
        FuncToSrcHolds(es, names, loc, rest, Put(done, f.name, next.value), n, src);
      } else {
        FuncToSrcHolds(es, names, loc, rest, done, n, src);
      }
      SomeSource(es, names, rest, n, src);
    }
  }

  lemma NoSourceSplits(es: seq<Entry>, names: Names, funcs: seq<Func>, n: string)
    requires funcs != [] && Bodies(funcs)
    ensures NoSource(es, names, funcs, n) <==>
            (funcs[0].name == n ==> SourceOf(es, names, funcs[0]) == None) && NoSource(es, names, funcs[1..], n)
  {
    hide SourceOf;
    var rest := funcs[1..];
    assert forall i | 0 <= i < |rest| :: rest[i] == funcs[i + 1];
    if NoSource(es, names, rest, n) && (funcs[0].name == n ==> SourceOf(es, names, funcs[0]) == None) {
      forall i | 0 <= i < |funcs| && funcs[i].name == n ensures SourceOf(es, names, funcs[i]) == None {
        assert i > 0 ==> funcs[i] == rest[i - 1];
      }
    }
  }

  lemma {:induction false} SomeSource(es: seq<Entry>, names: Names, funcs: seq<Func>, n: string, src: string)
    requires Bodies(funcs)
    ensures LastSource(es, names, funcs, n, src) ==> !NoSource(es, names, funcs, n)
  {
    hide SourceOf;
    if funcs != [] {
      NoSourceSplits(es, names, funcs, n);
      SomeSource(es, names, funcs[1..], n, src);
    }
  }

  ghost predicate DistinctNames(funcs: seq<Func>) {
    forall i, j | 0 <= i < j < |funcs| :: funcs[i].name != funcs[j].name
  }

  lemma {:induction false} OnlySource(es: seq<Entry>, names: Names, funcs: seq<Func>, i: nat, src: string)
    requires Bodies(funcs) && DistinctNames(funcs) && i < |funcs|
    ensures LastSource(es, names, funcs, funcs[i].name, src) <==> SourceOf(es, names, funcs[i]) == Some(src)
  {
    hide SourceOf;
    var rest := funcs[1..];
    if i == 0 {
      assert NoSource(es, names, rest, funcs[0].name);
    } else {
      assert rest[i - 1] == funcs[i];
      OnlySource(es, names, rest, i - 1, src);
      SomeSource(es, names, rest, funcs[i].name, src);
      if SourceOf(es, names, funcs[i]).Some? {
        assert !NoSource(es, names, rest, funcs[i].name);
      }
    }
  }

  lemma {:induction false} SourceHasName(es: seq<Entry>, names: Names, funcs: seq<Func>, n: string, src: string)
    requires Bodies(funcs) && LastSource(es, names, funcs, n, src)
    ensures exists i :: 0 <= i < |funcs| && funcs[i].name == n
  {
    hide SourceOf;
    if NoSource(es, names, funcs[1..], n) {
      assert funcs[0].name == n;
    } else {
      SourceHasName(es, names, funcs[1..], n, src);
      var i :| 0 <= i < |funcs[1..]| && funcs[1..][i].name == n;
      assert funcs[i + 1].name == n;
    }
  }

  /** With distinct names, bodies of at least two bytes and offsets above 0, the dict holds, for each
      function, the normalized source of the greatest sourced mapping of its body after its offset if
      there is one, nothing if no mapping in the body has a source, and an item exactly if the body has
      a target; it holds nothing else. */
  lemma DictHoldsSources(es: seq<Entry>, names: Names, funcs: seq<Func>, i: nat, last: int)
    requires Bodies(funcs) && DistinctNames(funcs) && i < |funcs| && funcs[i].offset > 0
    requires last == funcs[i].offset + funcs[i].size - 1
    ensures var f, m, r := funcs[i], Mappings(es), FuncToSrc(es, names, Unbound, funcs, []);
      && r.Success?
      && (HasTarget(m, names, f.offset, last) <==> exists src :: Item(f.name, src) in r.value)
      && (forall o | IsGreatest(m, names, f.offset, last, o) ::
            Item(f.name, NormalizePath(names(m[o].source.value))) in r.value)
      && (Sourceless(m, names, f.offset, last) ==> forall src :: Item(f.name, src) !in r.value)
      && (forall x | x in r.value :: exists j :: 0 <= j < |funcs| && funcs[j].name == x.key)
  {
    var f, r := funcs[i], FuncToSrc(es, names, Unbound, funcs, []);
    WalkRecordsGreatestSource(es, names, Unbound, f, last);
    assert AfterWalk(es, names, Unbound, f) == Bound(Walk(es, names, f.offset, last));
    var source := SourceOf(es, names, f);
    assert source == Recorded(names, AfterWalk(es, names, Unbound, f)).value;
    FailsIffFirstIsTiny(es, names, funcs);
    hide FuncToSrc, Walk, AfterWalk, Recorded, SourceOf, LastSource, Mappings, NormalizePath, HasTarget, NoSource,
      IsGreatest, Sourceless;
    forall src ensures Item(f.name, src) in r.value <==> source == Some(src) {
      FuncToSrcHolds(es, names, Unbound, funcs, [], f.name, src);
      OnlySource(es, names, funcs, i, src);
    }
    assert source.Some? ==> Item(f.name, source.value) in r.value;
    forall x | x in r.value ensures exists j :: 0 <= j < |funcs| && funcs[j].name == x.key {
      FuncToSrcHolds(es, names, Unbound, funcs, [], x.key, x.value);
      assert x == Item(x.key, x.value);
      SourceHasName(es, names, funcs, x.key, x.value);
    }
  }
}
