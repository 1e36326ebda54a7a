/** Base64 VLQ numbers, as tools/wasm-sourcemap.py writes them and as tools/emsymbolizer.py and
    src/source_map_support.js read them back: Python on unbounded integers, JavaScript with
    shifts that work on 32 bits. */
module Vlq {
  import opened Wrappers

  datatype Language = Python | JavaScript

  // ---- Alphabet: Table 1 in section 4 of RFC 4648, and the pad '=' as digit 64 ----

  function Digit(i: nat): char
    requires i < 64
  {
    if i < 26 then 'A' + i as char
    else if i < 52 then 'a' + (i - 26) as char
    else if i < 62 then '0' + (i - 52) as char
    else if i == 62 then '+'
    else '/'
  }

  function Value(c: char): Option<nat> {
    if 'A' <= c <= 'Z' then Some(c as int - 'A' as int)
    else if 'a' <= c <= 'z' then Some(c as int - 'a' as int + 26)
    else if '0' <= c <= '9' then Some(c as int - '0' as int + 52)
    else if c == '+' then Some(62)
    else if c == '/' then Some(63)
    else if c == '=' then Some(64)
    else None
  }

  lemma DigitValue(i: nat)
    requires i < 64
    ensures Value(Digit(i)) == Some(i) && Digit(i) != ','
  {
  }

  // ---- Encoding ----

  // The sign moves to the lowest bit.
  function Fold(n: int): nat {
    if n >= 0 then 2 * n else -2 * n + 1
  }

  function EncodeNat(x: nat): string {
    if x > 31 then [Digit(32 + x % 32)] + EncodeNat(x / 32) else [Digit(x)]
  }

  // encode_vlq
  function Encode(n: int): string {
    EncodeNat(Fold(n))
  }

  function EncodeAll(ns: seq<int>): string {
    if ns == [] then "" else Encode(ns[0]) + EncodeAll(ns[1..])
  }

  method EncodeVlq(n: int) returns (result: string)
    ensures result == Encode(n)
  {
    var x := Fold(n);
    result := "";
    while x > 31
      invariant x >= 0 && result + EncodeNat(x) == Encode(n)
    {
      result := result + [Digit(32 + x % 32)];
      x := x / 32;
    }
    result := result + [Digit(x)];
  }

  // ---- Decoding ----

  function Pow2(n: nat): (p: nat)
    ensures p > 0
  {
    if n == 0 then 1 else 2 * Pow2(n - 1)
  }

  // JavaScript's conversion to a signed 32-bit integer
  function ToInt32(x: int): (r: int)
    ensures -0x8000_0000 <= r < 0x8000_0000
    ensures -0x8000_0000 <= x < 0x8000_0000 ==> r == x
  {
    (x + 0x8000_0000) % 0x1_0000_0000 - 0x8000_0000
  }

  // digit << shift
  function Shifted(lang: Language, digit: nat, shift: nat): int {
    match lang
    case Python => digit * Pow2(shift)
    case JavaScript => ToInt32(digit * Pow2(shift % 32))
  }

  // The number a complete value stands for: sign in the lowest bit, the rest by >> 1
  function Unfold(lang: Language, value: int): int {
    var v := if lang.Python? then value / 2 else ToInt32(value) / 2;
    if value % 2 == 1 then -v else v
  }

  // Failure carries the character that is not in the alphabet.
  type Decoded = Result<seq<int>, char>

  function Prepend(ns: seq<int>, r: Decoded): Decoded {
    match r
    case Success(ms) => Success(ns + ms)
    case Failure(c) => Failure(c)
  }

  // decodeVLQ from a point inside the string; digits of an unfinished last value are dropped.
  function DecodeFrom(lang: Language, s: string, shift: nat, value: int): Decoded {
    if s == "" then Success([])
    else match Value(s[0])
      case None => Failure(s[0])
      case Some(d) =>
        var value' := value + Shifted(lang, d % 32, shift);
        if d / 32 % 2 == 1 then DecodeFrom(lang, s[1..], shift + 5, value')
        else Prepend([Unfold(lang, value')], DecodeFrom(lang, s[1..], 0, 0))
  }

  function Decode(lang: Language, s: string): Decoded {
    DecodeFrom(lang, s, 0, 0)
  }

  method DecodeVlq(lang: Language, s: string) returns (r: Decoded)
    ensures r == Decode(lang, s)
  {
    var result: seq<int>, shift, value := [], 0, 0;
    PrependNothing(Decode(lang, s));
    assert s[0..] == s;
    for i := 0 to |s|
      invariant shift >= 0
      invariant Decode(lang, s) == Prepend(result, DecodeFrom(lang, s[i..], shift, value))
    {
      assert s[i..][1..] == s[i + 1..];
      match Value(s[i])
      case None => return Failure(s[i]);
      case Some(integer) =>
        value := value + Shifted(lang, integer % 32, shift);
        if integer / 32 % 2 == 1 {
          shift := shift + 5;
        } else {
          PrependTwice(result, [Unfold(lang, value)], DecodeFrom(lang, s[i + 1..], 0, 0));
          result := result + [Unfold(lang, value)];
          value, shift := 0, 0;
        }
    }
    assert result + [] == result;
    r := Success(result);
  }

  lemma PrependNothing(r: Decoded)
    ensures Prepend([], r) == r
  {
    if r.Success? {
      assert [] + r.value == r.value;
    }
  }

  lemma PrependTwice(a: seq<int>, b: seq<int>, r: Decoded)
    ensures Prepend(a, Prepend(b, r)) == Prepend(a + b, r)
  {
    if r.Success? {
      assert a + (b + r.value) == a + b + r.value;
    }
  }

  // ---- Round trip ----

  // What the digits of x add up to
  function Sum(lang: Language, x: nat, shift: nat, value: int): int {
    if x > 31 then Sum(lang, x / 32, shift + 5, value + Shifted(lang, x % 32, shift))
    else value + Shifted(lang, x, shift)
  }

  // A digit with the continuation bit, and one without
  lemma DecodeDigit(lang: Language, i: nat, rest: string, shift: nat, value: int)
    requires i < 32
    ensures DecodeFrom(lang, [Digit(32 + i)] + rest, shift, value) ==
            DecodeFrom(lang, rest, shift + 5, value + Shifted(lang, i, shift))
    ensures DecodeFrom(lang, [Digit(i)] + rest, shift, value) ==
            Prepend([Unfold(lang, value + Shifted(lang, i, shift))], Decode(lang, rest))
  {
    hide Shifted, Unfold, Prepend;
    DigitValue(32 + i);
    DigitValue(i);
    assert ([Digit(32 + i)] + rest)[1..] == rest && ([Digit(i)] + rest)[1..] == rest;
  }

  lemma {:induction false} DecodeEncodedNat(lang: Language, x: nat, rest: string, shift: nat, value: int)
    ensures DecodeFrom(lang, EncodeNat(x) + rest, shift, value) ==
            Prepend([Unfold(lang, Sum(lang, x, shift, value))], Decode(lang, rest))
    decreases x
  {
    hide DecodeFrom, Decode, Shifted, Unfold, Prepend, Digit;
    if x > 31 {
      assert EncodeNat(x) + rest == [Digit(32 + x % 32)] + (EncodeNat(x / 32) + rest);
      DecodeDigit(lang, x % 32, EncodeNat(x / 32) + rest, shift, value);
      DecodeEncodedNat(lang, x / 32, rest, shift + 5, value + Shifted(lang, x % 32, shift));
    } else {
      DecodeDigit(lang, x, rest, shift, value);
    }
  }

  lemma {:induction false} PythonSum(x: nat, shift: nat, value: int)
    ensures Sum(Python, x, shift, value) == value + x * Pow2(shift)
    decreases x
  {
    if x > 31 {
      PythonSum(x / 32, shift + 5, value + Shifted(Python, x % 32, shift));
      Split32(x, shift);
    }
  }

  lemma Split32(x: nat, shift: nat)
    ensures Pow2(shift + 5) == 32 * Pow2(shift)
    ensures x % 32 * Pow2(shift) + x / 32 * Pow2(shift + 5) == x * Pow2(shift)
  {
    var p, q, d := Pow2(shift), x / 32, x % 32;
    assert Pow2(shift + 1) == 2 * p && Pow2(shift + 2) == 4 * p && Pow2(shift + 3) == 8 * p;
    assert Pow2(shift + 4) == 16 * p;
    assert x == 32 * q + d;
    assert q * (32 * p) == (32 * q) * p;
    assert (32 * q + d) * p == (32 * q) * p + d * p;
  }

  lemma {:induction false} Pow2Bound(n: nat, k: nat)
    requires n <= k
    ensures Pow2(n) <= Pow2(k)
    decreases k
  {
    if n < k {
      Pow2Bound(n, k - 1);
    }
  }

  lemma SmallShift(digit: nat, shift: nat)
    requires digit * Pow2(shift) < 0x8000_0000 && shift < 32
    ensures Shifted(JavaScript, digit, shift) == digit * Pow2(shift)
  {
    assert shift % 32 == shift;
    hide Pow2;
    var x := digit * Pow2(shift);
    assert 0 <= x;
  }

  lemma PartsBelow(x: nat, p: nat)
    ensures x % 32 * p <= x * p && x / 32 * (32 * p) <= x * p
    ensures x > 31 ==> 32 * p <= x / 32 * (32 * p)
  {
    var q, d := x / 32, x % 32;
    assert x == 32 * q + d;
    assert (32 * q + d) * p == q * (32 * p) + d * p;
    if q >= 1 {
      assert q * (32 * p) == 32 * p + (q - 1) * (32 * p);
    }
  }

  // As long as nothing reaches bit 31, 32-bit shifts add up to the same.
  lemma {:induction false} JavaScriptSum(x: nat, shift: nat, value: int)
    requires x * Pow2(shift) < 0x8000_0000 && shift < 32
    ensures Sum(JavaScript, x, shift, value) == value + x * Pow2(shift)
    decreases x
  {
    if x > 31 {
      var d, q := x % 32, x / 32;
      Split32(x, shift);
      PartsBelow(x, Pow2(shift));
      SmallShift(d, shift);
      if shift + 5 >= 32 {
        Pow2Bound(32, shift + 5);
        Pow2Of32();
      }
      hide Pow2, Shifted;
      JavaScriptSum(q, shift + 5, value + d * Pow2(shift));
    } else {
      SmallShift(x, shift);
    }
  }

  lemma Pow2Of32()
    ensures Pow2(30) == 0x4000_0000 && Pow2(32) == 0x1_0000_0000
  {
    assert Pow2(8) == 256;
    assert Pow2(16) == 65536;
    assert Pow2(24) == 0x100_0000;
    assert Pow2(30) == 0x4000_0000;
  }

  // How the encoding of n is read back
  function ReadBack(lang: Language, n: int): int {
    Unfold(lang, Sum(lang, Fold(n), 0, 0))
  }

  lemma PythonReadsBack(n: int)
    ensures ReadBack(Python, n) == n
  {
    PythonSum(Fold(n), 0, 0);
    assert Fold(n) * Pow2(0) == Fold(n);
  }

  /** JavaScript reads a number back if and only if its magnitude is below 2^30. */
  lemma JavaScriptReadsBackIff(n: int)
    ensures ReadBack(JavaScript, n) == n <==> -0x4000_0000 < n < 0x4000_0000
  {
    assert Pow2(0) == 1;
    hide Pow2, Sum;
    if -0x4000_0000 < n < 0x4000_0000 {
      JavaScriptSum(Fold(n), 0, 0);
    } else if n == 0x4000_0000 {
      TopDigit(Fold(n), 0);
    } else if n == -0x4000_0000 {
      TopDigit(Fold(n), 1);
    }
  }

  lemma ZeroDigit(q: nat, shift: nat, value: int)
    requires q >= 1
    ensures Sum(JavaScript, 32 * q, shift, value) == Sum(JavaScript, q, shift + 5, value)
  {
    assert 32 * q % 32 == 0 && 32 * q / 32 == q;
    assert Shifted(JavaScript, 0, shift) == ToInt32(0) == 0;
  }

  lemma FirstDigit(q: nat, low: nat)
    requires q >= 1 && low < 2
    ensures Sum(JavaScript, 32 * q + low, 0, 0) == Sum(JavaScript, q, 5, low)
  {
    assert (32 * q + low) % 32 == low && (32 * q + low) / 32 == q;
    assert Pow2(0) == 1;
  }

  lemma LastDigit(low: nat)
    ensures Sum(JavaScript, 2, 30, low) == low - 0x8000_0000
  {
    Pow2Of32();
    hide Pow2;
    assert ToInt32(0x8000_0000) == -0x8000_0000;
  }

  // The digits of 2^31 and 2^31 + 1: the sixth shift puts the top bit where the sign is.
  lemma TopDigit(x: nat, low: nat)
    requires low < 2 && x == 0x8000_0000 + low
    ensures Sum(JavaScript, x, 0, 0) == low - 0x8000_0000
  {
    hide Sum;
    LastDigit(low);
    ZeroDigit(2, 25, low);
    ZeroDigit(64, 20, low);
    ZeroDigit(2048, 15, low);
    ZeroDigit(65536, 10, low);
    ZeroDigit(0x20_0000, 5, low);
    FirstDigit(0x400_0000, low);
  }

  function ReadBackAll(lang: Language, ns: seq<int>): seq<int> {
    seq(|ns|, i requires 0 <= i < |ns| => ReadBack(lang, ns[i]))
  }

  lemma {:induction false} DecodeEncodedAll(lang: Language, ns: seq<int>)
    ensures Decode(lang, EncodeAll(ns)) == Success(ReadBackAll(lang, ns))
  {
    hide Sum, Unfold, EncodeNat, Shifted;
    if ns == [] {
      assert ReadBackAll(lang, ns) == [];
    } else {
      DecodeEncodedAll(lang, ns[1..]);
      DecodeEncodedNat(lang, Fold(ns[0]), EncodeAll(ns[1..]), 0, 0);
      assert EncodeAll(ns) == EncodeNat(Fold(ns[0])) + EncodeAll(ns[1..]);
      hide DecodeFrom, EncodeAll;
      assert ReadBack(lang, ns[0]) == Unfold(lang, Sum(lang, Fold(ns[0]), 0, 0));
      hide ReadBack;
      assert [ReadBack(lang, ns[0])] + ReadBackAll(lang, ns[1..]) == ReadBackAll(lang, ns);
    }
  }

  /** Round trip: Python reads back every list of integers; JavaScript reads a list back if and
      only if every magnitude in it is below 2^30. */
  lemma RoundTrip(ns: seq<int>)
    ensures Decode(Python, EncodeAll(ns)) == Success(ns)
    ensures Decode(JavaScript, EncodeAll(ns)) == Success(ns) <==>
            forall i | 0 <= i < |ns| :: -0x4000_0000 < ns[i] < 0x4000_0000
  {
    DecodeEncodedAll(Python, ns);
    DecodeEncodedAll(JavaScript, ns);
    hide Decode, EncodeAll, ReadBack;
    var js := ReadBackAll(JavaScript, ns);
    assert js == ns <==> forall i | 0 <= i < |ns| :: js[i] == ns[i];
    forall i | 0 <= i < |ns|
      ensures ReadBackAll(Python, ns)[i] == ns[i]
      ensures ReadBackAll(JavaScript, ns)[i] == ns[i] <==> -0x4000_0000 < ns[i] < 0x4000_0000
    {
      PythonReadsBack(ns[i]);
      JavaScriptReadsBackIff(ns[i]);
    }
    assert ReadBackAll(Python, ns) == ns;
  }

  // ---- The format, literally ----

  /** The digits are those of section 4 of RFC 4648: A to Z, a to z, 0 to 9, + and /; the readers also
      take '=' for 64, and nothing else. */
  lemma AlphabetIsBase64()
    ensures Digit(0) == 'A' && Digit(26) == 'a' && Digit(52) == '0' && Digit(62) == '+' && Digit(63) == '/'
    ensures forall i | 0 <= i < 61 && i != 25 && i != 51 :: Digit(i + 1) as int == Digit(i) as int + 1
    ensures Value('=') == Some(64) && forall i | 0 <= i < 64 :: Value(Digit(i)) == Some(i)
    ensures forall c | Value(c).Some? && c != '=' :: Value(c).value < 64 && Digit(Value(c).value) == c
  {
  }

  /** The lowest bit of a number is its sign, five bits make a digit, the lowest first, and 32 marks
      all digits but the last. */
  lemma DigitsOfNumber(n: int)
    ensures 0 <= n < 16 ==> Encode(n) == [Digit(2 * n)]
    ensures -16 < n < 0 ==> Encode(n) == [Digit(1 - 2 * n)]
    ensures n >= 16 ==> Encode(n) == [Digit(32 + 2 * n % 32)] + EncodeNat(n / 16)
    ensures n <= -16 ==> Encode(n) == [Digit(32 + (1 - 2 * n) % 32)] + EncodeNat((1 - 2 * n) / 32)
    ensures EncodeNat(0) == "A"
  {
    hide Digit;
    assert n >= 16 ==> 2 * n / 32 == n / 16;
    assert Digit(0) == 'A' by {
      AlphabetIsBase64();
    }
  }

  // The first character that is no digit
  ghost predicate FirstBad(s: string, i: int) {
    0 <= i < |s| && Value(s[i]) == None && forall j | 0 <= j < i :: Value(s[j]).Some?
  }

  // What decoding fails with, if it does
  ghost predicate FailsAt(s: string, r: Decoded) {
    && (r.Failure? <==> exists i :: FirstBad(s, i))
    && (forall i | FirstBad(s, i) :: r == Failure(s[i]))
  }

  /** Decoding fails exactly if some character is no digit, with the first such. */
  lemma {:induction false} DecodeFailsIff(lang: Language, s: string, shift: nat, value: int)
    ensures FailsAt(s, DecodeFrom(lang, s, shift, value))
  {
    hide Shifted, Unfold, Value, FailsAt;
    if s == "" {
      NothingFails();
    } else if Value(s[0]) == None {
      HeadFails(s);
    } else {
      var d := Value(s[0]).value;
      var value' := value + Shifted(lang, d % 32, shift);
      var tail := s[1..];
      DecodeFailsIff(lang, tail, shift + 5, value');
      DecodeFailsIff(lang, tail, 0, 0);
      TailFails(s, DecodeFrom(lang, tail, shift + 5, value'));
      TailFails(s, DecodeFrom(lang, tail, 0, 0));
      StillFails(s, DecodeFrom(lang, tail, 0, 0), [Unfold(lang, value')]);
    }
  }

  lemma NothingFails()
    ensures FailsAt("", Success([]))
  {
  }

  lemma HeadFails(s: string)
    requires s != "" && Value(s[0]) == None
    ensures FailsAt(s, Failure(s[0]))
  {
    hide Value;
    assert FirstBad(s, 0);
  }

  lemma StillFails(s: string, r: Decoded, ns: seq<int>)
    requires FailsAt(s, r)
    ensures FailsAt(s, Prepend(ns, r))
  {
    hide Value, FirstBad;
  }

  lemma TailFails(s: string, r: Decoded)
    requires s != "" && Value(s[0]).Some? && FailsAt(s[1..], r)
    ensures FailsAt(s, r)
  {
    hide Value;
    var tail := s[1..];
    forall i ensures FirstBad(s, i) <==> FirstBad(tail, i - 1) {
      BadLater(s, i);
    }
    if i :| FirstBad(tail, i) {
      assert FirstBad(tail, i + 1 - 1) && FirstBad(s, i + 1);
    }
  }

  lemma BadLater(s: string, i: int)
    requires s != "" && Value(s[0]).Some?
    ensures FirstBad(s, i) <==> FirstBad(s[1..], i - 1)
  {
    hide Value;
    var tail := s[1..];
    assert forall j | 0 <= j < |tail| :: tail[j] == s[j + 1];
    if FirstBad(tail, i - 1) {
      forall j | 0 <= j < i ensures Value(s[j]).Some? {
        assert j > 0 ==> s[j] == tail[j - 1];
      }
    }
  }

  lemma ContinuationAlone(lang: Language, d: nat)
    requires d < 32
    ensures DecodeFrom(lang, [Digit(32 + d)], 0, 0) == Success([])
  {
    DigitValue(32 + d);
    hide Value, Digit, Shifted;
    assert [Digit(32 + d)][1..] == "";
  }

  /** The digits of a number that the text breaks off are dropped. */
  lemma UnfinishedIsDropped(lang: Language, ns: seq<int>, d: nat)
    requires d < 32
    ensures Decode(lang, EncodeAll(ns) + [Digit(32 + d)]) == Success(ReadBackAll(lang, ns))
  {
    hide *;
    ContinuationAlone(lang, d);
    UnfinishedAfter(lang, ns, [Digit(32 + d)]);
  }

  lemma {:induction false} UnfinishedAfter(lang: Language, ns: seq<int>, rest: string)
    requires DecodeFrom(lang, rest, 0, 0) == Success([])
    ensures Decode(lang, EncodeAll(ns) + rest) == Success(ReadBackAll(lang, ns))
  {
    hide Sum, Unfold, EncodeNat, Shifted;
    if ns == [] {
      assert ReadBackAll(lang, ns) == [] && EncodeAll(ns) + rest == rest;
    } else {
      UnfinishedAfter(lang, ns[1..], rest);
      DecodeEncodedNat(lang, Fold(ns[0]), EncodeAll(ns[1..]) + rest, 0, 0);
      assert EncodeAll(ns) + rest == EncodeNat(Fold(ns[0])) + (EncodeAll(ns[1..]) + rest);
      hide DecodeFrom, EncodeAll;
      assert ReadBack(lang, ns[0]) == Unfold(lang, Sum(lang, Fold(ns[0]), 0, 0));
      hide ReadBack;
      assert [ReadBack(lang, ns[0])] + ReadBackAll(lang, ns[1..]) == ReadBackAll(lang, ns);
    }
  }
}
