/** The text that src/emrun_postjs.js posts for a printed line, and how do_POST of emrun.py
    takes it apart again.  A string stands for its UTF-8 bytes, one character per byte. */
module EmrunWire {
  import opened Wrappers
  import opened EmrunQueue

  // What a request asks of the server; Crashed is the AttributeError that unquote_u raises.
  datatype Request = PageLoad | Exit(code: string) | Print(m: Message) | Crashed

  predicate IsBytes(s: string) {
    forall i | 0 <= i < |s| :: s[i] as int < 256
  }

  // Character c does not occur in s.
  predicate Lacks(s: string, c: char) {
    forall i | 0 <= i < |s| :: s[i] != c
  }

  // ---- The page ----

  function HexDigit(n: nat): char
    requires n < 16
  {
    "0123456789ABCDEF"[n]
  }

  predicate IsDigit(c: char) {
    '0' <= c <= '9'
  }

  // Left alone by encodeURIComponent
  predicate IsUnreserved(c: char) {
    'A' <= c <= 'Z' || 'a' <= c <= 'z' || IsDigit(c) || c in "-_.!~*'()"
  }

  function EncodeByte(c: char): string
    requires c as int < 256
  {
    if IsUnreserved(c) then [c] else ['%', HexDigit(c as int / 16), HexDigit(c as int % 16)]
  }

  // encodeURIComponent
  function Encode(text: string): string
    requires IsBytes(text)
  {
    if text == "" then "" else EncodeByte(text[0]) + Encode(text[1..])
  }

  function Decimal(n: nat): string {
    if n < 10 then ['0' + n as char] else Decimal(n / 10) + ['0' + (n % 10) as char]
  }

  function Header(n: nat, toStderr: bool): string {
    (if toStderr then "^err^" else "^out^") + Decimal(n) + "^"
  }

  // The body posted by out and err
  function Body(m: Message): string
    requires m.seqNum >= 0 && IsBytes(m.text)
  {
    Header(m.seqNum, m.toStderr) + Encode(m.text)
  }

  // ---- The server ----

  // data.replace("+", " ")
  function Spaced(s: string): string {
    seq(|s|, i requires 0 <= i < |s| => if s[i] == '+' then ' ' else s[i])
  }

  function HexValue(c: char): Option<nat> {
    if IsDigit(c) then Some(c as int - '0' as int)
    else if 'A' <= c <= 'F' then Some(c as int - 'A' as int + 10)
    else if 'a' <= c <= 'f' then Some(c as int - 'a' as int + 10)
    else None
  }

  predicate IsEscape(s: string) {
    |s| >= 3 && s[0] == '%' && HexValue(s[1]).Some? && HexValue(s[2]).Some?
  }

  // urllib's unquote
  function Unquote(s: string): string {
    if s == "" then ""
    else if IsEscape(s)
    then [(16 * HexValue(s[1]).value + HexValue(s[2]).value) as char] + Unquote(s[3..])
    else [s[0]] + Unquote(s[1..])
  }

  predicate HasPercentU(s: string) {
    exists i :: 0 <= i < |s| - 1 && s[i] == '%' && s[i + 1] == 'u'
  }

  // data.index(c, from); None is the raised ValueError
  function Index(s: string, c: char, from: nat): Option<nat>
    decreases |s| - from
  {
    if from >= |s| then None else if s[from] == c then Some(from) else Index(s, c, from + 1)
  }

  function Digits(s: string): Option<nat> {
    if s == "" || !IsDigit(s[|s| - 1]) then None
    else
      var d := s[|s| - 1] as int - '0' as int;
      if |s| == 1 then Some(d)
      else match Digits(s[..|s| - 1])
        case None => None
        case Some(v) => Some(10 * v + d)
  }

  // int(...) on plain decimal numbers; None is the raised ValueError
  function Int(s: string): Option<int> {
    if s != "" && s[0] == '-' then
      match Digits(s[1..])
      case None => None
      case Some(v) => Some(-(v as int))
    else
      match Digits(s)
      case None => None
      case Some(v) => Some(v)
  }

  // The message part of do_POST
  function Receive(body: string): Request {
    var data := Unquote(Spaced(body));
    if HasPercentU(data) then Crashed
    else if data == "^pageload^" then PageLoad
    else if "^exit^" <= data then Exit(data[6..])
    else
      var isErr, isOut := "^err^" <= data, "^out^" <= data;
      if !isErr && !isOut then Print(Message(-1, data, false))
      else match Index(data, '^', 5)
        case None => Print(Message(-1, data, isErr))
        case Some(i) =>
          IndexBounds(data, '^', 5);
          match Int(data[5..i])
          case None => Print(Message(-1, data, isErr))
          case Some(n) => Print(Message(n, data[i + 1..], isErr))
  }

  lemma IndexBounds(s: string, c: char, from: nat)
    ensures Index(s, c, from).Some? ==>
      from <= Index(s, c, from).value < |s| && s[Index(s, c, from).value] == c
    decreases |s| - from
  {
  }

  // ---- Round trip ----

  lemma HexRoundTrip(n: nat)
    requires n < 16
    ensures HexValue(HexDigit(n)) == Some(n) && HexDigit(n) != '+'
  {
  }

  lemma {:induction false} EncodedHasNoPlus(text: string)
    requires IsBytes(text)
    ensures Lacks(Encode(text), '+')
  {
    if text != "" {
      EncodedHasNoPlus(text[1..]);
      HexRoundTrip(text[0] as int / 16);
      HexRoundTrip(text[0] as int % 16);
    }
  }

  lemma UnquoteByte(c: char, rest: string)
    requires c as int < 256
    ensures Unquote(EncodeByte(c) + rest) == [c] + Unquote(rest)
  {
    var e := EncodeByte(c) + rest;
    assert e[|EncodeByte(c)|..] == rest;
    if !IsUnreserved(c) {
      HexRoundTrip(c as int / 16);
      HexRoundTrip(c as int % 16);
      assert e[0] == '%' && e[1] == HexDigit(c as int / 16) && e[2] == HexDigit(c as int % 16);
      assert IsEscape(e);
    } else {
      assert e[0] == c && c != '%';
    }
  }

  lemma {:induction false} DecodeEncode(text: string)
    requires IsBytes(text)
    ensures Unquote(Encode(text)) == text
  {
    if text != "" {
      DecodeEncode(text[1..]);
      UnquoteByte(text[0], Encode(text[1..]));
      assert text == [text[0]] + text[1..];
    }
  }

  lemma {:induction false} UnquoteSkipsPlain(h: string, e: string)
    requires Lacks(h, '%')
    ensures Unquote(h + e) == h + Unquote(e)
  {
    if h == "" {
      assert h + e == e;
    } else {
      UnquoteSkipsPlain(h[1..], e);
      assert (h + e)[1..] == h[1..] + e;
      assert !IsEscape(h + e);
      assert h == [h[0]] + h[1..];
    }
  }

  lemma {:induction false} DecimalIsDigits(n: nat)
    ensures Decimal(n) != "" && (forall i | 0 <= i < |Decimal(n)| :: IsDigit(Decimal(n)[i]))
    ensures Digits(Decimal(n)) == Some(n)
  {
    if n >= 10 {
      DecimalIsDigits(n / 10);
      assert Decimal(n)[..|Decimal(n)| - 1] == Decimal(n / 10);
    }
  }

  lemma {:induction false} IndexFinds(s: string, c: char, from: nat, at: nat)
    requires from <= at < |s| && s[at] == c
    requires forall k | from <= k < at :: s[k] != c
    ensures Index(s, c, from) == Some(at)
    decreases at - from
  {
    if from < at {
      IndexFinds(s, c, from + 1, at);
    }
  }

  lemma HeaderIsPlain(m: Message)
    requires m.seqNum >= 0
    ensures Lacks(Header(m.seqNum, m.toStderr), '%') && Lacks(Header(m.seqNum, m.toStderr), '+')
  {
    DecimalIsDigits(m.seqNum);
    var h, d := Header(m.seqNum, m.toStderr), Decimal(m.seqNum);
    forall k | 0 <= k < |h| ensures h[k] != '%' && h[k] != '+' {
      assert 5 <= k < |h| - 1 ==> h[k] == d[k - 5];
    }
  }

  // What the server decodes from a posted body
  lemma BodyDecodes(m: Message)
    requires m.seqNum >= 0 && IsBytes(m.text)
    ensures Unquote(Spaced(Body(m))) == Header(m.seqNum, m.toStderr) + m.text
  {
    HeaderIsPlain(m);
    EncodedHasNoPlus(m.text);
    assert Spaced(Body(m)) == Body(m);
    UnquoteSkipsPlain(Header(m.seqNum, m.toStderr), Encode(m.text));
    DecodeEncode(m.text);
  }

  // The part of a header that should be its number
  lemma NumberOf(start: string, h: string, text: string)
    requires |start| == 5 && Lacks(h, '^')
    ensures var data := start + h + "^" + text; Index(data, '^', 5) == Some(5 + |h|) && data[5..5 + |h|] == h
  {
    var data := start + h + "^" + text;
    forall k | 5 <= k < 5 + |h| ensures data[k] != '^' {
      assert data[k] == h[k - 5];
    }
    IndexFinds(data, '^', 5, 5 + |h|);
  }

  lemma HeaderParses(m: Message)
    requires m.seqNum >= 0
    ensures var h, data := Header(m.seqNum, m.toStderr), Header(m.seqNum, m.toStderr) + m.text;
      && Index(data, '^', 5) == Some(|h| - 1)
      && Int(data[5..|h| - 1]) == Some(m.seqNum)
      && data[|h|..] == m.text
  {
    var d := Decimal(m.seqNum);
    DecimalIsDigits(m.seqNum);
    var start := if m.toStderr then "^err^" else "^out^";
    NumberOf(start, d, m.text);
    assert Header(m.seqNum, m.toStderr) == start + d + "^";
    hide Decimal, Header, Index, Int, Digits;
    assert (start + d + "^" + m.text)[|start + d + "^"|..] == m.text;
  }

  lemma PlainPrefix(h: string, text: string)
    requires Lacks(h, '%')
    ensures HasPercentU(h + text) <==> HasPercentU(text)
  {
    var data := h + text;
    if HasPercentU(data) {
      var i :| 0 <= i < |data| - 1 && data[i] == '%' && data[i + 1] == 'u';
      assert text[i - |h|] == '%' && text[i - |h| + 1] == 'u';
    }
    if HasPercentU(text) {
      var i :| 0 <= i < |text| - 1 && text[i] == '%' && text[i + 1] == 'u';
      assert data[i + |h|] == '%' && data[i + |h| + 1] == 'u';
    }
  }

  /** A printed line arrives as it was printed, with its number and stream, exactly when its text
      does not contain "%u"; if it does, the handler dies on it. */
  lemma PostRoundTrip(m: Message)
    requires m.seqNum >= 0 && IsBytes(m.text)
    ensures Receive(Body(m)) == if HasPercentU(m.text) then Crashed else Print(m)
  {
    hide Unquote, Spaced, Body, Encode, Index, Int, Decimal, HasPercentU, IsBytes;
    BodyDecodes(m);
    HeaderParses(m);
    HeaderIsPlain(m);
    PlainPrefix(Header(m.seqNum, m.toStderr), m.text);
    var data := Header(m.seqNum, m.toStderr) + m.text;
    assert data[1] == (if m.toStderr then 'e' else 'o') && data[2] == (if m.toStderr then 'r' else 'u');
  }

  // ---- The other requests ----

  lemma {:induction false} SpacedPlain(h: string)
    requires Lacks(h, '+')
    ensures Spaced(h) == h
  {
  }

  // A body without escapes arrives as it is.
  lemma PlainDecodes(h: string)
    requires Lacks(h, '%') && Lacks(h, '+')
    ensures Unquote(Spaced(h)) == h && !HasPercentU(h)
  {
    SpacedPlain(h);
    UnquoteSkipsPlain(h, "");
    assert h + "" == h && Unquote("") == "";
  }

  function Numeral(code: int): string {
    if code < 0 then "-" + Decimal(-code) else Decimal(code)
  }

  /** The exit request arrives with its code, and the page load notice as such. */
  lemma ExitRoundTrip(code: int)
    ensures Receive("^exit^" + Numeral(code)) == Exit(Numeral(code)) && Int(Numeral(code)) == Some(code)
    ensures Receive("^pageload^") == PageLoad
  {
    NumeralIsPlain(code);
    PlainDecodes("^exit^" + Numeral(code));
    PlainDecodes("^pageload^");
    var body := "^exit^" + Numeral(code);
    assert body[6..] == Numeral(code) && "^exit^" <= body;
    assert body[1] == 'e' && "^pageload^"[1] == 'p';
    hide Unquote, Spaced, HasPercentU, Numeral, Int, Digits;
  }

  lemma NumeralIsPlain(code: int)
    ensures Lacks("^exit^" + Numeral(code), '%') && Lacks("^exit^" + Numeral(code), '+')
    ensures Int(Numeral(code)) == Some(code)
  {
    var n := if code < 0 then -code else code;
    DecimalIsDigits(n);
    var d, body := Decimal(n), "^exit^" + Numeral(code);
    assert code < 0 ==> Numeral(code)[1..] == d;
    forall k | 0 <= k < |body| ensures body[k] != '%' && body[k] != '+' {
      assert k >= 6 ==> body[k] == Numeral(code)[k - 6];
    }
  }

  // The text is none of the forms the server knows.
  predicate IsFree(text: string) {
    !("^exit^" <= text) && !("^err^" <= text) && !("^out^" <= text) && text != "^pageload^"
  }

  /** A text in none of these forms is logged as it is, without a number, to standard output. */
  lemma FreeTextArrives(text: string)
    requires IsBytes(text) && IsFree(text) && !HasPercentU(text)
    ensures Receive(Encode(text)) == Print(Message(-1, text, false))
  {
    EncodedHasNoPlus(text);
    SpacedPlain(Encode(text));
    DecodeEncode(text);
    hide Unquote, Spaced, Encode, HasPercentU;
  }

  /** A line whose header holds no number is logged whole, header and all, without a number, to the
      stream of its header. */
  lemma BadHeaderArrivesWhole(h: string, text: string, toStderr: bool)
    requires IsBytes(text) && Lacks(h, '^') && Lacks(h, '%') && Lacks(h, '+') && Int(h) == None
    requires !HasPercentU(text)
    ensures var start := if toStderr then "^err^" else "^out^";
      Receive(start + h + "^" + Encode(text)) == Print(Message(-1, start + h + "^" + text, toStderr))
  {
    hide Unquote, Spaced, HasPercentU, Int, Digits, Encode, Index;
    var start := if toStderr then "^err^" else "^out^";
    var header := start + h + "^";
    HeaderDecodes(header, text);
    NumberOf(start, h, text);
    var data := header + text;
    assert start <= data && data[1] == start[1] && data[2] == start[2];
    assert start + h + "^" + Encode(text) == header + Encode(text);
  }

  lemma HeaderDecodes(header: string, text: string)
    requires IsBytes(text) && Lacks(header, '%') && Lacks(header, '+') && !HasPercentU(text)
    ensures Unquote(Spaced(header + Encode(text))) == header + text && !HasPercentU(header + text)
  {
    EncodedHasNoPlus(text);
    var body := header + Encode(text);
    assert Lacks(body, '+');
    SpacedPlain(body);
    UnquoteSkipsPlain(header, Encode(text));
    DecodeEncode(text);
    PlainPrefix(header, text);
    hide Unquote, Spaced, Encode;
  }

  /** The start of the body says the stream, and a blank, a caret or a plus sign in a text is escaped. */
  lemma BodyTells(m: Message)
    requires m.seqNum >= 0 && IsBytes(m.text)
    ensures ("^err^" <= Body(m) <==> m.toStderr) && ("^out^" <= Body(m) <==> !m.toStderr)
    ensures EncodeByte(' ') == "%20" && EncodeByte('^') == "%5E" && EncodeByte('+') == "%2B"
  {
    hide Decimal, Encode;
    assert Body(m)[1] == if m.toStderr then 'e' else 'o';
  }
}
