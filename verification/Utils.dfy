/** The helpers of tools/utils.py that the models use. */
module Utils {

  // path.replace('\\', '/')
  function ForwardSlashes(path: string): string {
    if path == "" then "" else [if path[0] == '\\' then '/' else path[0]] + ForwardSlashes(path[1..])
  }

  // path.replace('//', '/')
  function HalveSlashes(path: string): string {
    if |path| > 1 && path[0] == '/' && path[1] == '/' then "/" + HalveSlashes(path[2..])
    else if path == "" then ""
    else [path[0]] + HalveSlashes(path[1..])
  }

  function NormalizePath(path: string): (r: string)
    ensures r == "" <==> path == ""
  {
    HalveSlashes(ForwardSlashes(path))
  }

  /** Every backslash becomes a slash, and nothing else changes. */
  lemma {:induction false} SlashesAreForward(path: string)
    ensures |ForwardSlashes(path)| == |path|
    ensures forall i | 0 <= i < |path| :: ForwardSlashes(path)[i] == if path[i] == '\\' then '/' else path[i]
  {
    if path != "" {
      SlashesAreForward(path[1..]);
    }
  }

  // n slashes
  function Slashes(n: nat): string {
    seq(n, _ => '/')
  }

  lemma SlashesSplit(n: nat, tail: string)
    ensures n > 0 ==> (Slashes(n) + tail)[0] == '/' && (Slashes(n) + tail)[1..] == Slashes(n - 1) + tail
    ensures |Slashes(n)| == n && Slashes(0) == "" && "" + tail == tail
  {
  }

  lemma OneMore(n: nat, rest: string)
    ensures "/" + (Slashes(n) + rest) == Slashes(n + 1) + rest
  {
  }

  /** A run of slashes becomes half as long, rounded up; other characters stay. */
  lemma {:induction false} RunsAreHalved(n: nat, tail: string)
    requires tail == "" || tail[0] != '/'
    ensures HalveSlashes(Slashes(n) + tail) == Slashes((n + 1) / 2) + HalveSlashes(tail)
    ensures tail != "" ==> HalveSlashes(tail) == [tail[0]] + HalveSlashes(tail[1..])
  {
    hide Slashes;
    var path := Slashes(n) + tail;
    SlashesSplit(n, tail);
    SlashesSplit(0, HalveSlashes(tail));
    if n == 1 {
      SlashesSplit(0, tail);
      OneMore(0, HalveSlashes(tail));
    } else if n > 1 {
      SlashesSplit(n - 1, tail);
      assert path[2..] == path[1..][1..];
      RunsAreHalved(n - 2, tail);
      OneMore((n - 1) / 2, HalveSlashes(tail));
    }
  }

  /** In a normalized path backslashes count as slashes, and a run of slashes is half as long as it was,
      rounded up. */
  lemma NormalizeHalves(n: nat, tail: string)
    requires tail == "" || (tail[0] != '/' && tail[0] != '\\')
    ensures NormalizePath(Slashes(n) + tail) == Slashes((n + 1) / 2) + NormalizePath(tail)
    ensures NormalizePath(ForwardSlashes(tail)) == NormalizePath(tail)
  {
    var forward := ForwardSlashes(tail);
    SlashesAreForward(tail);
    SlashesAreForward(forward);
    assert ForwardSlashes(forward) == forward;
    SlashesAreForward(Slashes(n) + tail);
    assert ForwardSlashes(Slashes(n) + tail) == Slashes(n) + forward;
    hide ForwardSlashes, HalveSlashes;
    RunsAreHalved(n, forward);
  }
}
