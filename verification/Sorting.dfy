/** The stable sort that Python's list.sort and JavaScript's Array.sort provide. */
module Sorting {

  ghost predicate TotalPreorder<T(!new)>(le: (T, T) -> bool) {
    && (forall x, y :: le(x, y) || le(y, x))
    && (forall x, y, z :: le(x, y) && le(y, z) ==> le(x, z))
  }

  ghost predicate Sorted<T>(le: (T, T) -> bool, s: seq<T>) {
    forall i, j | 0 <= i < j < |s| :: le(s[i], s[j])
  }

  // Puts x behind everything that may precede it.
  function Insert<T>(le: (T, T) -> bool, x: T, s: seq<T>): seq<T> {
    if s == [] then [x]
    else if le(s[|s| - 1], x) then s + [x]
    else Insert(le, x, s[..|s| - 1]) + [s[|s| - 1]]
  }

  function Sort<T>(le: (T, T) -> bool, s: seq<T>): seq<T> {
    if s == [] then [] else Insert(le, s[|s| - 1], Sort(le, s[..|s| - 1]))
  }

  lemma {:induction false} InsertPermutes<T>(le: (T, T) -> bool, x: T, s: seq<T>)
    ensures multiset(Insert(le, x, s)) == multiset(s) + multiset{x}
    ensures |Insert(le, x, s)| == |s| + 1
  {
    if s != [] {
      assert s == s[..|s| - 1] + [s[|s| - 1]];
      if !le(s[|s| - 1], x) {
        InsertPermutes(le, x, s[..|s| - 1]);
      }
    }
  }

  lemma {:induction false} InsertSorts<T(!new)>(le: (T, T) -> bool, x: T, s: seq<T>)
    requires TotalPreorder(le) && Sorted(le, s)
    ensures Sorted(le, Insert(le, x, s))
  {
    if s != [] {
      var front, last := s[..|s| - 1], s[|s| - 1];
      if le(last, x) {
        forall i | 0 <= i < |s| ensures le(s[i], x) {
          assert le(s[i], last) || i == |s| - 1;
        }
      } else {
        InsertSorts(le, x, front);
        InsertPermutes(le, x, front);
        var r := Insert(le, x, front);
        forall i | 0 <= i < |r| ensures le(r[i], last) {
          assert r[i] in multiset(r);
          assert r[i] == x || r[i] in multiset(front);
          assert r[i] != x ==> r[i] in front;
        }
      }
    }
  }

  lemma {:induction false} SortPermutes<T>(le: (T, T) -> bool, s: seq<T>)
    ensures multiset(Sort(le, s)) == multiset(s)
    ensures |Sort(le, s)| == |s|
  {
    if s != [] {
      SortPermutes(le, s[..|s| - 1]);
      InsertPermutes(le, s[|s| - 1], Sort(le, s[..|s| - 1]));
      assert s == s[..|s| - 1] + [s[|s| - 1]];
    }
  }

  lemma {:induction false} SortSorts<T(!new)>(le: (T, T) -> bool, s: seq<T>)
    requires TotalPreorder(le)
    ensures Sorted(le, Sort(le, s))
  {
    if s != [] {
      SortSorts(le, s[..|s| - 1]);
      InsertSorts(le, s[|s| - 1], Sort(le, s[..|s| - 1]));
    }
  }

  lemma {:induction false} SortKeepsSorted<T>(le: (T, T) -> bool, s: seq<T>)
    requires Sorted(le, s)
    ensures Sort(le, s) == s
  {
    if s != [] {
      var front, last := s[..|s| - 1], s[|s| - 1];
      SortKeepsSorted(le, front);
      assert s == front + [last];
      assert front != [] ==> le(front[|front| - 1], last);
    }
  }

  // Sorting a sorted list with one more element at its end inserts that element.
  lemma SortAppended<T>(le: (T, T) -> bool, s: seq<T>, x: T)
    requires Sorted(le, s)
    ensures Sort(le, s + [x]) == Insert(le, x, s)
  {
    SortKeepsSorted(le, s);
    assert (s + [x])[..|s|] == s;
  }

  // The elements equivalent to x, in order
  function Like<T>(le: (T, T) -> bool, x: T, s: seq<T>): seq<T> {
    if s == [] then []
    else Like(le, x, s[..|s| - 1]) + (if le(x, s[|s| - 1]) && le(s[|s| - 1], x) then [s[|s| - 1]] else [])
  }

  lemma LikeNext<T>(le: (T, T) -> bool, x: T, s: seq<T>, y: T)
    ensures Like(le, x, s + [y]) == Like(le, x, s) + (if le(x, y) && le(y, x) then [y] else [])
  {
    assert (s + [y])[..|s|] == s;
  }

  lemma {:induction false} InsertIsStable<T(!new)>(le: (T, T) -> bool, x: T, y: T, s: seq<T>)
    requires TotalPreorder(le)
    ensures Like(le, x, Insert(le, y, s)) == Like(le, x, s) + (if le(x, y) && le(y, x) then [y] else [])
  {
    LikeNext(le, x, s, y);
    if s != [] && !le(s[|s| - 1], y) {
      var front, last := s[..|s| - 1], s[|s| - 1];
      InsertIsStable(le, x, y, front);
      LikeNext(le, x, Insert(le, y, front), last);
    }
  }

  /** The sort is stable: equivalent elements keep their order. */
  lemma {:induction false} SortIsStable<T(!new)>(le: (T, T) -> bool, s: seq<T>, x: T)
    requires TotalPreorder(le)
    ensures Like(le, x, Sort(le, s)) == Like(le, x, s)
  {
    if s != [] {
      SortIsStable(le, s[..|s| - 1], x);
      InsertIsStable(le, x, s[|s| - 1], Sort(le, s[..|s| - 1]));
    }
  }
}
