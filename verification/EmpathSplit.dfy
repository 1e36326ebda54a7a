/** get_path_to_functions_map of tools/empath-split.py as a whole: from the functions of a module and
    its source map to the functions of each listed path. */
module EmpathSplit {
  import opened AddressWalk
  import opened OrderedDict
  import opened PathSplit
  import opened SourceMap
  import opened Utils
  import opened Vlq
  import opened Wrappers

  method GetPathToFunctionsMap(sm: WasmSourceMap, names: Names, funcs: seq<Func>, paths: seq<string>)
    returns (r: Result<map<string, seq<string>>, ()>)
    requires sm.Valid() && sm.lang == Python && Distinct(paths)
    ensures r.Failure? <==> FuncToSrc(sm.entries, names, Unbound, funcs, []).Failure?
    ensures r.Success? ==> r.value.Keys == set p | p in paths
    ensures r.Success? ==>
              var dict := FuncToSrc(sm.entries, names, Unbound, funcs, []);
              forall p | p in paths :: r.value[p] == Taken(Invert(dict.value), Order(paths), p)
  {
    hide FuncToSrc, Invert, Order, Taken;
    var dict := FunctionSources(sm, names, funcs);
    if dict.Failure? {
      return Failure(());
    }
    FailsIffFirstIsTiny(sm.entries, names, funcs);
    var m := PathsOfFunctions(dict.value, paths);
    r := Success(m);
  }

  /** End to end, from mappings to paths: a function whose body has a sourced mapping after its offset
      is in the list of exactly the innermost listed ancestor of the source of the greatest such
      mapping; one whose body has no mapping with a source is in no list. */
  lemma FunctionGoesWhereItsSourceLies(es: seq<Entry>, names: Names, funcs: seq<Func>, paths: seq<string>,
                                       i: nat, last: int, o: int, p: string)
    requires Bodies(funcs) && DistinctNames(funcs) && i < |funcs| && funcs[i].offset > 0
    requires last == funcs[i].offset + funcs[i].size - 1
    requires InnerSortsLater(paths) && p in paths
    ensures FuncToSrc(es, names, Unbound, funcs, []).Success?
    ensures var f, m := funcs[i], Mappings(es);
      var list := Taken(Invert(FuncToSrc(es, names, Unbound, funcs, []).value), Order(paths), p);
      && (IsGreatest(m, names, f.offset, last, o) ==>
            var src := NormalizePath(names(m[o].source.value));
            (f.name in list <==> IsInnermost(paths, src, p) && FirstText(paths, p)))
      && (Sourceless(m, names, f.offset, last) ==> f.name !in list)
  {
    var f := funcs[i];
    var dict := FuncToSrc(es, names, Unbound, funcs, []);
    DictHoldsSources(es, names, funcs, i, last);
    FailsIffFirstIsTiny(es, names, funcs);
    FunctionGoesToInnermost(dict.value, paths, p, f.name);
    hide FuncToSrc, Mappings, NormalizePath, Invert, Order, Taken, IsInnermost, FirstText,
      IsGreatest, Sourceless;
    forall a, b | Item(f.name, a) in dict.value && Item(f.name, b) in dict.value ensures a == b {
      OneItem(dict.value, f.name, a, b);
    }
  }

  lemma OneItem(dict: seq<Item<string, string>>, key: string, a: string, b: string)
    requires DistinctKeys(dict) && Item(key, a) in dict && Item(key, b) in dict
    ensures a == b
  {
    var i :| 0 <= i < |dict| && dict[i] == Item(key, a);
    var j :| 0 <= j < |dict| && dict[j] == Item(key, b);
  }
}
