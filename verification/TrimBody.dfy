/** How tools/emscripten.py trims the body of an EM_ASM block: whitespace, quotes, braces and
    parentheses around the body are taken off until nothing changes. */
module TrimBody {
  import opened Wrappers

  // ---- Brackets ----

  function Weight(ch: char, open: char, close: char): int {
    if ch == open then 1 else if ch == close then -1 else 0
  }

  function Depth(s: string, open: char, close: char): int {
    if s == "" then 0 else Depth(s[..|s| - 1], open, close) + Weight(s[|s| - 1], open, close)
  }

  // Every bracket in the text has its partner in the text.
  predicate Balanced(s: string, open: char, close: char) {
    && (forall k | 0 <= k <= |s| :: Depth(s[..k], open, close) >= 0)
    && Depth(s, open, close) == 0
  }

  // The bracket at i is open up to j and closed there.
  predicate Matches(body: string, i: nat, j: nat)
    requires i < |body| && j < |body|
  {
    && i < j
    && (forall k | i < k <= j :: Depth(body[i..k], body[i], body[j]) > 0)
    && Depth(body[i..j + 1], body[i], body[j]) == 0
  }

  /** The counting loop finds whether the brackets at the two indices belong together; a negative
      closing index counts from the end. */
  method ParenthesesMatch(body: string, openIdx: nat, closeIdx: int) returns (match_: bool)
    requires openIdx < |body| && -|body| <= closeIdx < |body|
    ensures match_ <==> Matches(body, openIdx, if closeIdx < 0 then closeIdx + |body| else closeIdx)
  {
    var close := closeIdx;
    if close < 0 {
      close := close + |body|;
    }
    var count, i := 1, openIdx + 1;
    ghost var open, shut := body[openIdx], body[close];
    assert body[openIdx..i][..0] == "";
    while i < close + 1
      invariant openIdx < i && (close >= openIdx ==> i <= close + 1)
      invariant i <= |body| && count == Depth(body[openIdx..i], open, shut)
      invariant forall k | openIdx < k <= i :: Depth(body[openIdx..k], open, shut) > 0
    {
      assert body[openIdx..i + 1][..i - openIdx] == body[openIdx..i];
      if body[i] == body[openIdx] {
        count := count + 1;
      } else if body[i] == body[close] {
        count := count - 1;
        if count <= 0 {
          return i == close;
        }
      }
      i := i + 1;
    }
    return false;
  }

  lemma {:induction false} DepthOfPair(a: string, b: string, open: char, close: char)
    ensures Depth(a + b, open, close) == Depth(a, open, close) + Depth(b, open, close)
  {
    if b == "" {
      assert a + b == a;
    } else {
      assert (a + b)[..|a + b| - 1] == a + b[..|b| - 1];
      DepthOfPair(a, b[..|b| - 1], open, close);
    }
  }

  lemma DepthOfOne(ch: char, open: char, close: char)
    ensures Depth([ch], open, close) == Weight(ch, open, close)
  {
    assert [ch][..0] == "";
  }

  // The prefixes of a bracketed text are one deeper than those of its inside.
  lemma DepthInside(body: string, s: string, open: char, close: char, k: nat)
    requires open != close && body == [open] + s + [close] && k <= |s|
    ensures Depth(body[..k + 1], open, close) == 1 + Depth(s[..k], open, close)
    ensures Depth(body, open, close) == Depth(s, open, close)
  {
    assert body[..k + 1] == [open] + s[..k];
    DepthOfPair([open], s[..k], open, close);
    DepthOfOne(open, open, close);
    DepthOfPair([open] + s, [close], open, close);
    DepthOfPair([open], s, open, close);
    DepthOfOne(close, open, close);
  }

  // The first bracket's match is the last character exactly if the inside is balanced.
  lemma MatchIffInsideBalanced(body: string, s: string, open: char, close: char)
    requires open != close && body == [open] + s + [close]
    ensures Matches(body, 0, |body| - 1) <==> Balanced(s, open, close)
    ensures Matches(body, 0, |body| - 1) ==> Balanced(body, open, close)
  {
    hide Depth;
    var n := |body| - 1;
    forall k | 0 <= k <= |s|
      ensures Depth(body[0..k + 1], open, close) == 1 + Depth(s[..k], open, close)
    {
      DepthInside(body, s, open, close, k);
      assert body[0..k + 1] == body[..k + 1];
    }
    assert body[0..n + 1] == body;
    DepthInside(body, s, open, close, 0);
    if Matches(body, 0, n) {
      forall k | 0 <= k <= |s| ensures Depth(s[..k], open, close) >= 0 {
        assert Depth(body[0..k + 1], open, close) > 0;
      }
      forall k | 0 <= k <= |body| ensures Depth(body[..k], open, close) >= 0 {
        NoDepth(open, close);
        assert body[..0] == "" && body[..n + 1] == body;
        if 0 < k <= n {
          assert body[0..k] == body[..k];
          assert Depth(body[0..k], open, close) > 0;
        }
      }
    }
    if Balanced(s, open, close) {
      forall k | 0 < k <= n ensures Depth(body[0..k], open, close) > 0 {
        assert Depth(s[..k - 1], open, close) >= 0;
        DepthInside(body, s, open, close, k - 1);
        assert body[0..k] == body[..k - 1 + 1];
      }
      assert Depth(body[0..n + 1], body[0], body[n]) == 0;
    }
  }

  lemma NoDepth(open: char, close: char)
    ensures Depth("", open, close) == 0
  {
  }

  // ---- Whitespace ----

  // str.isspace
  predicate White(ch: char) {
    var c := ch as int;
    9 <= c <= 13 || 28 <= c <= 32 || c == 0x85 || c == 0xA0 || c == 0x1680 || 0x2000 <= c <= 0x200A ||
    c == 0x2028 || c == 0x2029 || c == 0x202F || c == 0x205F || c == 0x3000
  }

  function StripLeft(s: string): string {
    if s != "" && White(s[0]) then StripLeft(s[1..]) else s
  }

  function StripRight(s: string): string {
    if s != "" && White(s[|s| - 1]) then StripRight(s[..|s| - 1]) else s
  }

  function Strip(s: string): string {
    StripRight(StripLeft(s))
  }

  predicate Stripped(s: string) {
    s != "" ==> !White(s[0]) && !White(s[|s| - 1])
  }

  // Stripping takes a white prefix and a white suffix, as long as they can be.
  lemma {:induction false} StripLeftParts(s: string) returns (i: nat)
    ensures i <= |s| && StripLeft(s) == s[i..] && forall k | 0 <= k < i :: White(s[k])
    ensures StripLeft(s) != "" ==> !White(StripLeft(s)[0])
  {
    i := 0;
    if s != "" && White(s[0]) {
      var j := StripLeftParts(s[1..]);
      i := j + 1;
      assert s[1..][j..] == s[i..];
      forall k | 0 <= k < i ensures White(s[k]) {
        assert k > 0 ==> s[k] == s[1..][k - 1];
      }
    }
  }

  lemma {:induction false} StripRightParts(s: string) returns (j: nat)
    ensures j <= |s| && StripRight(s) == s[..j] && forall k | j <= k < |s| :: White(s[k])
    ensures StripRight(s) != "" ==> !White(StripRight(s)[|StripRight(s)| - 1])
  {
    j := |s|;
    if s != "" && White(s[|s| - 1]) {
      var n := |s| - 1;
      j := StripRightParts(s[..n]);
      assert s[..n][..j] == s[..j];
      forall k | j <= k < |s| ensures White(s[k]) {
        assert k < n ==> s[k] == s[..n][k];
      }
    }
  }

  lemma StripParts(s: string) returns (i: nat, j: nat)
    ensures i <= j <= |s| && Strip(s) == s[i..j] && Stripped(Strip(s))
    ensures forall k | 0 <= k < i || j <= k < |s| :: White(s[k])
  {
    i := StripLeftParts(s);
    var t := s[i..];
    var n := StripRightParts(t);
    j := i + n;
    forall k | j <= k < |s| ensures White(s[k]) {
      assert s[k] == t[k - i];
    }
  }

  lemma StripOfStripped(s: string)
    requires Stripped(s)
    ensures Strip(s) == s
  {
  }

  // ---- One pass ----

  // replace('\\"', '"')
  function Unescape(s: string): string {
    if |s| > 1 && s[0] == '\\' && s[1] == '"' then "\"" + Unescape(s[2..])
    else if s == "" then ""
    else [s[0]] + Unescape(s[1..])
  }

  predicate Quoted(body: string) {
    |body| > 1 && body[0] == '"' && body[|body| - 1] == '"'
  }

  predicate Enclosed(body: string, open: char, close: char) {
    |body| > 1 && body[0] == open && body[|body| - 1] == close && Matches(body, 0, |body| - 1)
  }

  function Unquote(body: string): string {
    if Quoted(body) then Strip(Unescape(body[1..|body| - 1])) else body
  }

  function Unwrap(body: string, open: char, close: char): string {
    if Enclosed(body, open, close) then Strip(body[1..|body| - 1]) else body
  }

  function Peel(body: string): string {
    Unwrap(Unwrap(Unquote(body), '{', '}'), '(', ')')
  }

  lemma {:induction false} UnescapeShrinks(s: string)
    ensures |Unescape(s)| <= |s|
  {
    if |s| > 1 && s[0] == '\\' && s[1] == '"' {
      UnescapeShrinks(s[2..]);
    } else if s != "" {
      UnescapeShrinks(s[1..]);
    }
  }

  lemma StripShrinks(s: string)
    ensures |Strip(s)| <= |s| && Stripped(Strip(s))
  {
    var i, j := StripParts(s);
  }

  lemma UnquoteShrinks(body: string)
    ensures Quoted(body) ==> |Unquote(body)| < |body| && Stripped(Unquote(body))
  {
    if Quoted(body) {
      UnescapeShrinks(body[1..|body| - 1]);
      StripShrinks(Unescape(body[1..|body| - 1]));
    }
  }

  lemma UnwrapShrinks(body: string, open: char, close: char)
    ensures Enclosed(body, open, close) ==> |Unwrap(body, open, close)| < |body| && Stripped(Unwrap(body, open, close))
  {
    if Enclosed(body, open, close) {
      StripShrinks(body[1..|body| - 1]);
    }
  }

  // The body has none of the layers that a pass takes off.
  predicate Bare(body: string) {
    !Quoted(body) && !Enclosed(body, '{', '}') && !Enclosed(body, '(', ')')
  }

  // A pass that changes the body shortens it, and one that does not has found it bare.
  lemma PeelShrinks(body: string)
    ensures |Peel(body)| <= |body|
    ensures |Peel(body)| < |body| <==> !Bare(body)
    ensures Bare(body) <==> Peel(body) == body
    ensures Stripped(body) ==> Stripped(Peel(body))
  {
    hide Strip, Unescape, Matches, Stripped;
    var a := Unquote(body);
    var b := Unwrap(a, '{', '}');
    UnquoteShrinks(body);
    UnwrapShrinks(a, '{', '}');
    UnwrapShrinks(b, '(', ')');
  }

  // ---- The loop ----

  function Trim(body: string): string
    decreases |body|
  {
    PeelShrinks(body);
    if Peel(body) == body then body else Trim(Peel(body))
  }

  function TrimmedBody(body: string): string {
    Trim(Strip(body))
  }

  method TrimAsmConstBody(text: string) returns (body: string)
    ensures body == TrimmedBody(text)
  {
    hide Trim, Peel, Strip;
    body := Strip(text);
    var orig: Option<string> := None;
    while orig != Some(body)
      invariant Trim(body) == Trim(Strip(text))
      invariant orig == Some(body) ==> Peel(body) == body
      decreases if orig == Some(body) then 0 else |body| + 1
    {
      orig := Some(body);
      PeelShrinks(body);
      TrimUnfolds(body);
      body := Pass(body);
    }
    PeelShrinks(body);
    TrimUnfolds(body);
  }

  // The three tests of one pass of the loop
  method Pass(text: string) returns (body: string)
    ensures body == Peel(text)
  {
    hide Strip, Unescape, Unwrap;
    body := text;
    if |body| > 1 && body[0] == '"' && body[|body| - 1] == '"' {
      body := Strip(Unescape(body[1..|body| - 1]));
    }
    body := Layer(body, '{', '}');
    body := Layer(body, '(', ')');
  }

  // One of the two bracket tests
  method Layer(body: string, open: char, close: char) returns (inner: string)
    ensures inner == Unwrap(body, open, close)
  {
    hide Strip, Matches;
    inner := body;
    if |body| > 1 && body[0] == open && body[|body| - 1] == close {
      var matching := ParenthesesMatch(body, 0, -1);
      if matching {
        inner := Strip(body[1..|body| - 1]);
      }
    }
  }

  lemma TrimUnfolds(body: string)
    ensures Trim(body) == Trim(Peel(body))
    ensures Bare(body) ==> Trim(body) == body
  {
    PeelShrinks(body);
  }
  // ---- What trimming means ----

  /** The result has no layer left, and trimming it again changes nothing. */
  lemma TrimmedIsBare(text: string)
    ensures Bare(TrimmedBody(text)) && Stripped(TrimmedBody(text))
    ensures TrimmedBody(TrimmedBody(text)) == TrimmedBody(text)
    ensures |TrimmedBody(text)| <= |text|
  {
    hide Bare, Stripped, Strip, Trim;
    StripShrinks(text);
    TrimIsBare(Strip(text));
    StripOfStripped(TrimmedBody(text));
    TrimUnfolds(TrimmedBody(text));
  }

  lemma {:induction false} TrimIsBare(body: string)
    requires Stripped(body)
    ensures Bare(Trim(body)) && Stripped(Trim(body)) && |Trim(body)| <= |body|
    decreases |body|
  {
    hide Bare, Stripped, Peel;
    PeelShrinks(body);
    if Peel(body) != body {
      TrimIsBare(Peel(body));
    }
  }

  /** Trimming keeps braces and parentheses balanced, and unbalanced ones unbalanced. */
  lemma TrimKeepsBalance(text: string)
    ensures Balanced(TrimmedBody(text), '{', '}') <==> Balanced(text, '{', '}')
    ensures Balanced(TrimmedBody(text), '(', ')') <==> Balanced(text, '(', ')')
  {
    hide Balanced, Trim, Strip;
    StripKeepsBalance(text, '{', '}');
    StripKeepsBalance(text, '(', ')');
    TrimKeeps(Strip(text));
  }

  lemma {:induction false} TrimKeeps(body: string)
    ensures Balanced(Trim(body), '{', '}') <==> Balanced(body, '{', '}')
    ensures Balanced(Trim(body), '(', ')') <==> Balanced(body, '(', ')')
    decreases |body|
  {
    hide Balanced, Unquote, Unwrap;
    PeelShrinks(body);
    if Peel(body) != body {
      var a := Unquote(body);
      var b := Unwrap(a, '{', '}');
      UnquoteKeepsBalance(body, '{', '}');
      UnquoteKeepsBalance(body, '(', ')');
      UnwrapKeepsBalance(a, '{', '}', '{', '}');
      UnwrapKeepsBalance(a, '{', '}', '(', ')');
      UnwrapKeepsBalance(b, '(', ')', '{', '}');
      UnwrapKeepsBalance(b, '(', ')', '(', ')');
      TrimKeeps(Peel(body));
    }
  }

  // The characters of a text that are in a set
  function Only(s: string, keep: set<char>): string {
    if s == "" then "" else (if s[0] in keep then [s[0]] else "") + Only(s[1..], keep)
  }

  lemma Associative(a: string, b: string, c: string)
    ensures a + (b + c) == a + b + c
  {
  }

  lemma {:induction false} OnlyOfPair(a: string, b: string, keep: set<char>)
    ensures Only(a + b, keep) == Only(a, keep) + Only(b, keep)
  {
    if a == "" {
      assert a + b == b;
      var r := Only(b, keep);
      assert "" + r == r;
    } else {
      assert (a + b)[1..] == a[1..] + b && (a + b)[0] == a[0];
      OnlyOfPair(a[1..], b, keep);
      var first := if a[0] in keep then [a[0]] else "";
      Associative(first, Only(a[1..], keep), Only(b, keep));
      assert Only(a + b, keep) == first + Only(a[1..] + b, keep);
      assert Only(a, keep) == first + Only(a[1..], keep);
    }
  }

  lemma {:induction false} OnlyOfNone(s: string, keep: set<char>)
    requires forall k | 0 <= k < |s| :: s[k] !in keep
    ensures Only(s, keep) == ""
  {
    if s != "" {
      OnlyOfNone(s[1..], keep);
    }
  }

  lemma OnlyOfInside(s: string, i: nat, j: nat, keep: set<char>)
    requires i <= j <= |s| && forall k | 0 <= k < i || j <= k < |s| :: s[k] !in keep
    ensures Only(s[i..j], keep) == Only(s, keep)
  {
    assert s == s[..i] + (s[i..j] + s[j..]);
    OnlyOfNone(s[..i], keep);
    OnlyOfNone(s[j..], keep);
    OnlyOfPair(s[i..j], s[j..], keep);
    OnlyOfPair(s[..i], s[i..j] + s[j..], keep);
  }

  lemma {:induction false} OnlyOfUnescaped(s: string, keep: set<char>)
    requires '"' !in keep && '\\' !in keep
    ensures Only(Unescape(s), keep) == Only(s, keep)
  {
    if |s| > 1 && s[0] == '\\' && s[1] == '"' {
      OnlyOfUnescaped(s[2..], keep);
      assert s == "\\\"" + s[2..];
      OnlyOfPair("\\\"", s[2..], keep);
      OnlyOfNone("\\\"", keep);
      OnlyOfPair("\"", Unescape(s[2..]), keep);
      OnlyOfNone("\"", keep);
    } else if s != "" {
      OnlyOfUnescaped(s[1..], keep);
      OnlyOfPair([s[0]], Unescape(s[1..]), keep);
      OnlyOfPair([s[0]], s[1..], keep);
      assert s == [s[0]] + s[1..];
    }
  }

  lemma OnlyOfStripped(s: string, keep: set<char>)
    requires forall ch | ch in keep :: !White(ch)
    ensures Only(Strip(s), keep) == Only(s, keep)
  {
    var i, j := StripParts(s);
    hide Strip;
    OnlyOfInside(s, i, j, keep);
  }

  lemma OnlyOfUnquoted(body: string, keep: set<char>)
    requires '"' !in keep && '\\' !in keep && forall ch | ch in keep :: !White(ch)
    ensures Only(Unquote(body), keep) == Only(body, keep)
  {
    hide Strip, Unescape;
    if Quoted(body) {
      var inside := body[1..|body| - 1];
      OnlyOfInside(body, 1, |body| - 1, keep);
      OnlyOfUnescaped(inside, keep);
      OnlyOfStripped(Unescape(inside), keep);
    }
  }

  lemma OnlyOfUnwrapped(body: string, open: char, close: char, keep: set<char>)
    requires open !in keep && close !in keep && forall ch | ch in keep :: !White(ch)
    ensures Only(Unwrap(body, open, close), keep) == Only(body, keep)
  {
    hide Strip, Matches;
    if Enclosed(body, open, close) {
      OnlyOfInside(body, 1, |body| - 1, keep);
      OnlyOfStripped(body[1..|body| - 1], keep);
    }
  }

  // Balance is a matter of the brackets alone.
  lemma {:induction false} DepthOfOnly(s: string, open: char, close: char)
    ensures Depth(Only(s, {open, close}), open, close) == Depth(s, open, close)
  {
    if s != "" {
      DepthOfOnly(s[1..], open, close);
      assert s == [s[0]] + s[1..];
      DepthOfPair([s[0]], s[1..], open, close);
      DepthOfOne(s[0], open, close);
      var rest := Only(s[1..], {open, close});
      DepthOfPair([s[0]], rest, open, close);
      assert "" + rest == rest;
    }
  }

  // Each prefix of the brackets comes from a prefix of the text.
  lemma {:induction false} PrefixOfOnly(s: string, keep: set<char>, k: nat) returns (n: nat)
    requires k <= |Only(s, keep)|
    ensures n <= |s| && Only(s[..n], keep) == Only(s, keep)[..k]
  {
    n := 0;
    if k > 0 {
      var rest := s[1..];
      var first := if s[0] in keep then [s[0]] else "";
      var m := PrefixOfOnly(rest, keep, k - |first|);
      n := m + 1;
      assert s[..n][1..] == rest[..m];
      assert Only(s, keep)[..k] == first + Only(rest, keep)[..k - |first|];
    }
  }

  lemma BalancedByBrackets(s: string, open: char, close: char)
    ensures Balanced(Only(s, {open, close}), open, close) <==> Balanced(s, open, close)
  {
    hide Depth;
    var keep := {open, close};
    var b := Only(s, keep);
    DepthOfOnly(s, open, close);
    if Balanced(s, open, close) {
      forall k | 0 <= k <= |b| ensures Depth(b[..k], open, close) >= 0 {
        var n := PrefixOfOnly(s, keep, k);
        DepthOfOnly(s[..n], open, close);
      }
    }
    if Balanced(b, open, close) {
      forall n | 0 <= n <= |s| ensures Depth(s[..n], open, close) >= 0 {
        assert s == s[..n] + s[n..];
        OnlyOfPair(s[..n], s[n..], keep);
        DepthOfOnly(s[..n], open, close);
        assert Only(s[..n], keep) == b[..|Only(s[..n], keep)|];
      }
    }
  }

  lemma StripKeepsBalance(s: string, open: char, close: char)
    requires !White(open) && !White(close)
    ensures Balanced(Strip(s), open, close) <==> Balanced(s, open, close)
  {
    hide Balanced, Strip, Only;
    BalancedByBrackets(s, open, close);
    BalancedByBrackets(Strip(s), open, close);
    OnlyOfStripped(s, {open, close});
  }

  lemma UnquoteKeepsBalance(body: string, open: char, close: char)
    requires !White(open) && !White(close) && '"' !in {open, close} && '\\' !in {open, close}
    ensures Balanced(Unquote(body), open, close) <==> Balanced(body, open, close)
  {
    hide Balanced, Unquote, Only;
    BalancedByBrackets(body, open, close);
    BalancedByBrackets(Unquote(body), open, close);
    OnlyOfUnquoted(body, {open, close});
  }

  lemma UnwrapKeepsBalance(body: string, o: char, c: char, open: char, close: char)
    requires o != c && !White(open) && !White(close)
    requires (o, c) == (open, close) || {o, c} !! {open, close}
    ensures Balanced(Unwrap(body, o, c), open, close) <==> Balanced(body, open, close)
  {
    hide Balanced, Strip, Only, Matches;
    if Enclosed(body, o, c) {
      var inside := body[1..|body| - 1];
      StripKeepsBalance(inside, open, close);
      if o == open {
        assert body == [o] + inside + [c];
        MatchIffInsideBalanced(body, inside, open, close);
      } else {
        BalancedByBrackets(body, open, close);
        BalancedByBrackets(inside, open, close);
        OnlyOfInside(body, 1, |body| - 1, {open, close});
      }
    }
  }

  /** No text is lost: apart from whitespace, quotes, backslashes and brackets, the characters of
      the body stay, in order. */
  lemma TrimKeepsText(text: string, keep: set<char>)
    requires forall ch | ch in keep :: !White(ch)
    requires keep !! {'"', '\\', '{', '}', '(', ')'}
    ensures Only(TrimmedBody(text), keep) == Only(text, keep)
  {
    hide Trim, Strip, Only;
    OnlyOfStripped(text, keep);
    OnlyOfTrimmed(Strip(text), keep);
  }

  lemma {:induction false} OnlyOfTrimmed(body: string, keep: set<char>)
    requires forall ch | ch in keep :: !White(ch)
    requires keep !! {'"', '\\', '{', '}', '(', ')'}
    ensures Only(Trim(body), keep) == Only(body, keep)
    decreases |body|
  {
    hide Only, Unquote, Unwrap;
    PeelShrinks(body);
    if Peel(body) != body {
      OnlyOfUnquoted(body, keep);
      OnlyOfUnwrapped(Unquote(body), '{', '}', keep);
      OnlyOfUnwrapped(Unwrap(Unquote(body), '{', '}'), '(', ')', keep);
      OnlyOfTrimmed(Peel(body), keep);
    }
  }

  // ---- Which layers are taken off ----

  /** A pair of braces around a text is taken off exactly if the braces inside are balanced. */
  lemma BraceLayerIff(s: string)
    ensures TrimmedBody("{" + s + "}") == TrimmedBody(s) <==> Balanced(s, '{', '}')
  {
    hide Trim, Balanced, Matches, Strip;
    var body := "{" + s + "}";
    WrappedFacts(body, s, '{', '}');
    TrimmedIsBare(s);
    if Balanced(s, '{', '}') {
      WrapPeels(body, s);
      PeelAfter(Strip(s));
      TrimUnfolds(body);
    } else {
      TrimUnfolds(body);
    }
  }

  /** And so for parentheses. */
  lemma ParenLayerIff(s: string)
    ensures TrimmedBody("(" + s + ")") == TrimmedBody(s) <==> Balanced(s, '(', ')')
  {
    hide Trim, Balanced, Matches, Strip;
    var body := "(" + s + ")";
    WrappedFacts(body, s, '(', ')');
    TrimmedIsBare(s);
    TrimUnfolds(body);
  }

  lemma WrappedFacts(body: string, s: string, open: char, close: char)
    requires open != close && body == [open] + s + [close] && !White(open) && !White(close)
    ensures Strip(body) == body && body[1..|body| - 1] == s
    ensures Enclosed(body, open, close) <==> Balanced(s, open, close)
    ensures open != '"' ==> !Quoted(body)
    ensures forall o, c | o != open :: !Enclosed(body, o, c)
  {
    StripOfStripped(body);
    MatchIffInsideBalanced(body, s, open, close);
  }

  lemma WrapPeels(body: string, s: string)
    requires body == "{" + s + "}" && Enclosed(body, '{', '}')
    ensures Peel(body) == Unwrap(Strip(s), '(', ')')
  {
    hide Strip, Matches;
    assert body[1..|body| - 1] == s;
    assert !Quoted(body);
  }

  // Starting in the middle of a pass leads to the same result.
  lemma PeelAfter(t: string)
    ensures Trim(Unwrap(t, '(', ')')) == Trim(t)
    ensures Trim(Unwrap(Unwrap(t, '{', '}'), '(', ')')) == Trim(t)
  {
    hide Trim, Strip, Matches, Unescape;
    TrimUnfolds(t);
    if Quoted(t) {
      assert !Enclosed(t, '(', ')') && !Enclosed(t, '{', '}');
    } else if Enclosed(t, '(', ')') {
      assert !Enclosed(t, '{', '}');
    }
  }

  // The quoting that trimming undoes: every quote gets a backslash.
  function Escape(s: string): string {
    if s == "" then "" else (if s[0] == '"' then "\\\"" else [s[0]]) + Escape(s[1..])
  }

  lemma {:induction false} UnescapeEscape(s: string)
    ensures Unescape(Escape(s)) == s
  {
    if s != "" {
      UnescapeEscape(s[1..]);
      var rest := Escape(s[1..]);
      if s[0] == '"' {
        assert Escape(s)[2..] == rest;
      } else {
        assert Escape(s)[1..] == rest && Escape(s)[0] == s[0];
        assert rest != "" ==> rest[0] != '"';
      }
    }
  }

  /** A quoted body trims to what the body itself trims to. */
  lemma QuoteLayer(s: string)
    ensures TrimmedBody("\"" + Escape(s) + "\"") == TrimmedBody(s)
  {
    hide Trim, Matches, Strip, Escape, Unescape;
    var body := "\"" + Escape(s) + "\"";
    StripOfQuoted(body);
    UnescapeEscape(s);
    assert body[1..|body| - 1] == Escape(s);
    TrimUnfolds(body);
    PeelAfter(Strip(s));
  }

  lemma StripOfQuoted(body: string)
    requires Quoted(body)
    ensures Strip(body) == body
  {
    StripOfStripped(body);
  }

  // ---- Whitespace, literally ----

  // Not a blank, a tab, a line break or another of Python's white characters
  predicate Inked(ch: char) {
    ch != ' ' && ch != '\t' && ch != '\n' && ch != '\r' && ch as int != 0xB && ch as int != 0xC &&
    ch as int != 0x85 && ch as int != 0xA0 && ch as int != 0x2028 && ch as int != 0x3000
  }

  /** The result neither begins nor ends with a blank, a tab or a line break. */
  lemma TrimmedEdges(text: string)
    ensures var r := TrimmedBody(text); r != "" ==> Inked(r[0]) && Inked(r[|r| - 1])
  {
    TrimmedIsBare(text);
    hide Trim, Strip, Bare;
  }

  /** Only white characters are taken for such: the visible ones of ASCII stay where the text has them,
      but for quotes, backslashes and brackets. */
  lemma TrimKeepsVisible(text: string, keep: set<char>)
    requires forall ch | ch in keep :: '!' <= ch <= '~'
    requires keep !! {'"', '\\', '{', '}', '(', ')'}
    ensures Only(TrimmedBody(text), keep) == Only(text, keep)
  {
    TrimKeepsText(text, keep);
  }

  /** Whitespace around a body goes, and nothing of the body with it. */
  lemma WhiteMarginsGo(before: string, text: string, after: string)
    requires forall i | 0 <= i < |before| :: before[i] in {' ', '\t', '\n', '\r'}
    requires forall i | 0 <= i < |after| :: after[i] in {' ', '\t', '\n', '\r'}
    ensures TrimmedBody(before + text + after) == TrimmedBody(text)
  {
    StripMargins(before, text, after);
  }

  lemma StripMargins(before: string, text: string, after: string)
    requires forall i | 0 <= i < |before| :: White(before[i])
    requires forall i | 0 <= i < |after| :: White(after[i])
    ensures Strip(before + text + after) == Strip(text)
  {
    hide Strip, White, Stripped;
    var whole, m := before + text + after, |before|;
    var i, j := StripParts(whole);
    var k, l := StripParts(text);
    PartStripped(whole, i, j);
    PartStripped(text, k, l);
    WiderMargins(before, text, after, k, l);
    SamePart(whole, i, j, m + k, m + l);
    hide MarginsAt;
    assert text[k..l] == whole[m + k..m + l];
  }

  // White but for the part from i to j, which begins and ends with no white
  ghost predicate MarginsAt(s: string, i: int, j: int) {
    && 0 <= i <= j <= |s|
    && (forall n | 0 <= n < i || j <= n < |s| :: White(s[n]))
    && (i < j ==> !White(s[i]) && !White(s[j - 1]))
  }

  lemma PartStripped(s: string, i: nat, j: nat)
    requires i <= j <= |s| && Stripped(s[i..j]) && forall n | 0 <= n < i || j <= n < |s| :: White(s[n])
    ensures MarginsAt(s, i, j)
  {
    hide White;
    assert i < j ==> s[i..j][0] == s[i] && s[i..j][j - i - 1] == s[j - 1];
  }

  lemma WiderMargins(before: string, text: string, after: string, k: int, l: int)
    requires MarginsAt(text, k, l)
    requires forall n | 0 <= n < |before| :: White(before[n])
    requires forall n | 0 <= n < |after| :: White(after[n])
    ensures MarginsAt(before + text + after, |before| + k, |before| + l)
  {
    hide White;
    var s, m := before + text + after, |before|;
    forall n | 0 <= n < |s| ensures s[n] == if n < m then before[n] else if n < m + |text| then text[n - m]
                                            else after[n - m - |text|] {
    }
    assert k < l ==> s[m + k] == text[k] && s[m + l - 1] == text[l - 1];
  }

  // There is only one such part.
  lemma SamePart(s: string, i: int, j: int, k: int, l: int)
    requires MarginsAt(s, i, j) && MarginsAt(s, k, l)
    ensures s[i..j] == s[k..l]
  {
    hide White;
    if i < j && k < l {
      assert White(s[i]) == false && White(s[j - 1]) == false;
      assert White(s[k]) == false && White(s[l - 1]) == false;
    }
  }
}
