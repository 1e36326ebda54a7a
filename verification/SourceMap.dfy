/** The wasm source map readers of tools/emsymbolizer.py and src/source_map_support.js, and the
    mappings text that build_sourcemap of tools/wasm-sourcemap.py writes for them. */
module SourceMap {
  import opened Wrappers
  import opened Sorting
  import opened Vlq

  // Indices into sources and names, or none; a missing line or column is the reader's default.
  datatype Location = Location(source: Option<int>, line: Option<int>, column: Option<int>, func: Option<int>)

  datatype Entry = Entry(offset: int, loc: Location)

  // The running totals of the deltas
  datatype Cursor = Cursor(offset: int, source: int, line: int, column: int, func: int)

  const START := Cursor(0, 0, 1, 1, 0)

  // A character outside the alphabet, or a segment without a number (an IndexError in Python)
  datatype Error = BadCharacter(c: char) | NoNumber

  // ---- Text ----

  // str.split(',')
  function Split(s: string): (parts: seq<string>)
    ensures parts != []
  {
    if s == "" then [""]
    else
      var rest := Split(s[1..]);
      if s[0] == ',' then [""] + rest else [[s[0]] + rest[0]] + rest[1..]
  }

  function Join(parts: seq<string>): string
    requires parts != []
  {
    if |parts| == 1 then parts[0] else parts[0] + "," + Join(parts[1..])
  }

  predicate NoComma(s: string) {
    forall i | 0 <= i < |s| :: s[i] != ','
  }

  lemma {:induction false} SplitPart(s: string, t: string)
    requires NoComma(s)
    ensures Split(s) == [s]
    ensures Split(s + "," + t) == [s] + Split(t)
  {
    var u := s + "," + t;
    if s == "" {
      assert u[1..] == t;
    } else {
      SplitPart(s[1..], t);
      assert u[1..] == s[1..] + "," + t;
      assert s == [s[0]] + s[1..];
    }
  }

  lemma {:induction false} SplitJoin(parts: seq<string>)
    requires parts != [] && forall i | 0 <= i < |parts| :: NoComma(parts[i])
    ensures Split(Join(parts)) == parts
  {
    if |parts| == 1 {
      SplitPart(parts[0], "");
    } else {
      SplitJoin(parts[1..]);
      SplitPart(parts[0], Join(parts[1..]));
    }
  }

  // ---- Reading ----

  predicate HasFunc(lang: Language, fields: nat) {
    if lang.Python? then fields == 5 else fields >= 5
  }

  function Advance(lang: Language, c: Cursor, data: seq<int>): Cursor
    requires data != []
  {
    Cursor(c.offset + data[0],
           if |data| >= 2 then c.source + data[1] else c.source,
           if |data| >= 3 then c.line + data[2] else c.line,
           if |data| >= 4 then c.column + data[3] else c.column,
           if HasFunc(lang, |data|) then c.func + data[4] else c.func)
  }

  // The entry of a segment with this many fields, the totals being c
  function EntryAt(lang: Language, c: Cursor, fields: nat): Entry {
    Entry(c.offset, Location(if fields >= 2 then Some(c.source) else None,
                             if fields >= 3 then Some(c.line) else None,
                             if fields >= 4 then Some(c.column) else None,
                             if HasFunc(lang, fields) then Some(c.func) else None))
  }

  type Parsed = Result<seq<Entry>, Error>

  function Before(es: seq<Entry>, r: Parsed): Parsed {
    match r
    case Success(more) => Success(es + more)
    case Failure(e) => Failure(e)
  }

  // The entries of the segments, in order; JavaScript skips empty segments.
  function Entries(lang: Language, segments: seq<string>, c: Cursor): Parsed {
    if segments == [] then Success([])
    else if lang.JavaScript? && segments[0] == "" then Entries(lang, segments[1..], c)
    else match Decode(lang, segments[0])
      case Failure(ch) => Failure(BadCharacter(ch))
      case Success(data) =>
        if data == [] then Failure(NoNumber)
        else
          var c' := Advance(lang, c, data);
          Before([EntryAt(lang, c', |data|)], Entries(lang, segments[1..], c'))
  }

  function Offsets(es: seq<Entry>): seq<int> {
    seq(|es|, i requires 0 <= i < |es| => es[i].offset)
  }

  // Later entries replace earlier ones at the same offset.
  function Mappings(es: seq<Entry>): map<int, Location> {
    if es == [] then map[] else Mappings(es[..|es| - 1])[es[|es| - 1].offset := es[|es| - 1].loc]
  }

  predicate Ascending(a: int, b: int) {
    a <= b
  }

  // The reference answer: the entry at the greatest offset not above q, the last one of several.
  function Floor(es: seq<Entry>, q: int): Option<Entry> {
    if es == [] then None
    else
      var f, last := Floor(es[..|es| - 1], q), es[|es| - 1];
      if last.offset <= q && (f.None? || f.value.offset <= last.offset) then Some(last) else f
  }

  // What lookup makes of it.  Python takes offset 0 for "not found" and a lower bound of 0 for
  // none; JavaScript gives null for code without a source, and knows no lower bound.
  function Answer(lang: Language, f: Option<Entry>, lowerBound: Option<int>): Option<Location> {
    if f.None? then None
    else match lang
      case Python =>
        if f.value.offset == 0 || (lowerBound.Some? && lowerBound.value != 0 && f.value.offset < lowerBound.value)
        then None else Some(f.value.loc)
      case JavaScript => if f.value.loc.source.None? then None else Some(f.value.loc)
  }

  // What lookup returns: a location with its indexes looked up
  datatype LocationInfo =
    LocationInfo(source: Option<string>, line: Option<int>, column: Option<int>, func: Option<string>)

  // An index into the sources or names table.  Python counts negative indexes from the end and
  // raises IndexError beyond; JavaScript gives undefined.
  function Pick(lang: Language, table: seq<string>, index: Option<int>): Result<Option<string>, ()> {
    match index
    case None => Success(None)
    case Some(i) =>
      if 0 <= i < |table| then Success(Some(table[i]))
      else if lang.JavaScript? then Success(None)
      else if -|table| <= i < 0 then Success(Some(table[|table| + i]))
      else Failure(())
  }

  function Resolve(lang: Language, loc: Option<Location>, sources: seq<string>, names: seq<string>):
    Result<Option<LocationInfo>, ()>
  {
    match loc
    case None => Success(None)
    case Some(l) =>
      match Pick(lang, sources, l.source)
      case Failure(_) => Failure(())
      case Success(source) =>
        match Pick(lang, names, l.func)
        case Failure(_) => Failure(())
        case Success(func) => Success(Some(LocationInfo(source, l.line, l.column, func)))
  }

  // Every location names its source and function by places in the tables.
  predicate InTables(es: seq<Entry>, sources: seq<string>, names: seq<string>) {
    forall i | 0 <= i < |es| ::
      && (es[i].loc.source.Some? ==> 0 <= es[i].loc.source.value < |sources|)
      && (es[i].loc.func.Some? ==> 0 <= es[i].loc.func.value < |names|)
  }

  class WasmSourceMap {
    const lang: Language
    var sources: seq<string>
    var names: seq<string>
    var mappings: map<int, Location>
    var offsets: seq<int>
    ghost var entries: seq<Entry>

    ghost predicate Valid()
      reads this
    {
      mappings == Mappings(entries) && offsets == Sort(Ascending, Offsets(entries))
    }

    constructor (lang: Language)
      ensures Valid() && this.lang == lang && entries == []
    {
      this.lang, sources, names := lang, [], [];
      mappings, offsets, entries := map[], [], [];
    }

    method Parse(text: string, sources: seq<string>, names: seq<string>) returns (error: Option<Error>)
      requires entries == [] && Valid()
      modifies this
      ensures this.sources == sources && this.names == names
      ensures match Entries(lang, Split(text), START)
        case Success(es) => error == None && Valid() && entries == es
        case Failure(e) => error == Some(e)
    {
      this.sources, this.names := sources, names;
      assert Offsets(entries) == [] && offsets == [];
      hide Split, Sort, Decode, EntryAt, Advance, Offsets, Mappings;
      var segments, cursor := Split(text), START;
      assert segments[0..] == segments;
      BeforeNothing(Entries(lang, segments, START));
      for i := 0 to |segments|
        invariant Entries(lang, segments, START) == Before(entries, Entries(lang, segments[i..], cursor))
        invariant mappings == Mappings(entries) && offsets == Offsets(entries)
        invariant this.sources == sources && this.names == names
      {
        assert segments[i..][1..] == segments[i + 1..];
        var segment := segments[i];
        if lang.Python? || segment != "" {
          var decoded := DecodeVlq(lang, segment);
          if decoded.Failure? {
            return Some(BadCharacter(decoded.error));
          }
          var data := decoded.value;
          if data == [] {
            return Some(NoNumber);
          }
          cursor := Advance(lang, cursor, data);
          var entry := EntryAt(lang, cursor, |data|);
          BeforeTwice(entries, [entry], Entries(lang, segments[i + 1..], cursor));
          EntryAppended(entries, entry);
          mappings := mappings[entry.offset := entry.loc];
          offsets := offsets + [entry.offset];
          entries := entries + [entry];
        }
      }
      offsets := Sort(Ascending, offsets);
      error := None;
    }

    // find_offset, and normalizeOffset without a lower bound
    method FindOffset(offset: int, lowerBound: Option<int>) returns (r: Option<int>)
      requires Valid()
      ensures r == match Floor(entries, offset)
        case None => None
        case Some(e) =>
          if lowerBound.Some? && lowerBound.value != 0 && e.offset < lowerBound.value then None else Some(e.offset)
    {
      SortSorts(Ascending, Offsets(entries));
      var lo, hi := 0, |offsets|;
      while lo < hi
        invariant 0 <= lo <= hi <= |offsets|
        invariant forall k | 0 <= k < lo :: offsets[k] <= offset
        invariant forall k | hi <= k < |offsets| :: offset < offsets[k]
      {
        var mid := (lo + hi) / 2;
        if offsets[mid] > offset {
          forall k | mid <= k < |offsets| ensures offset < offsets[k] {
            assert k > mid ==> Ascending(offsets[mid], offsets[k]);
          }
          hi := mid;
        } else {
          forall k | 0 <= k <= mid ensures offsets[k] <= offset {
            assert k < mid ==> Ascending(offsets[k], offsets[mid]);
          }
          lo := mid + 1;
        }
      }
      SearchFindsFloor(entries, offset, lo);
      if lo == 0 {
        return None;
      }
      if lowerBound.Some? && lowerBound.value != 0 && offsets[lo - 1] < lowerBound.value {
        return None;
      }
      r := Some(offsets[lo - 1]);
    }

    // lookup up to the tables
    method LookupLocation(offset: int, lowerBound: Option<int>) returns (r: Option<Location>)
      requires Valid() && (lang.JavaScript? ==> lowerBound == None)
      ensures r == Answer(lang, Floor(entries, offset), lowerBound)
    {
      var nearest := FindOffset(offset, lowerBound);
      if nearest.None? || (lang.Python? && nearest.value == 0) {
        return None;
      }
      FloorInMappings(entries, offset);
      var info := mappings[nearest.value];
      if lang.JavaScript? && info.source.None? {
        return None;
      }
      r := Some(info);
    }

    method Lookup(offset: int, lowerBound: Option<int>) returns (r: Result<Option<LocationInfo>, ()>)
      requires Valid() && (lang.JavaScript? ==> lowerBound == None)
      ensures r == Resolve(lang, Answer(lang, Floor(entries, offset), lowerBound), sources, names)
    {
      var info := LookupLocation(offset, lowerBound);
      if info.None? {
        return Success(None);
      }
      var source := Pick(lang, sources, info.value.source);
      if source.Failure? {
        return Failure(());
      }
      var func := Pick(lang, names, info.value.func);
      if func.Failure? {
        return Failure(());
      }
      r := Success(Some(LocationInfo(source.value, info.value.line, info.value.column, func.value)));
    }
  }

  /** With the indexes in the tables a lookup never raises, and both languages look them up alike. */
  lemma InTablesNeverRaises(es: seq<Entry>, sources: seq<string>, names: seq<string>, q: int, lower: Option<int>)
    requires InTables(es, sources, names)
    ensures var loc := Answer(Python, Floor(es, q), lower);
      Resolve(Python, loc, sources, names).Success? &&
      Resolve(Python, loc, sources, names) == Resolve(JavaScript, loc, sources, names)
  {
    var i := FloorIsGreatestAndLast(es, q);
    hide Floor;
  }

  lemma EntryAppended(es: seq<Entry>, e: Entry)
    ensures Offsets(es + [e]) == Offsets(es) + [e.offset]
    ensures Mappings(es + [e]) == Mappings(es)[e.offset := e.loc]
  {
    assert (es + [e])[..|es|] == es;
  }

  lemma BeforeNothing(r: Parsed)
    ensures Before([], r) == r
  {
    if r.Success? {
      assert [] + r.value == r.value;
    }
  }

  lemma BeforeTwice(a: seq<Entry>, b: seq<Entry>, r: Parsed)
    ensures Before(a, Before(b, r)) == Before(a + b, r)
  {
    if r.Success? {
      assert a + (b + r.value) == a + b + r.value;
    }
  }

  // ---- The reference answer ----

  /** Floor is what its name says: none exactly if every offset is above q; otherwise an entry at
      the greatest offset not above q, and no later entry has the same offset. */
  lemma {:induction false} FloorIsGreatestAndLast(es: seq<Entry>, q: int) returns (i: nat)
    ensures Floor(es, q).None? <==> forall j | 0 <= j < |es| :: es[j].offset > q
    ensures Floor(es, q).Some? ==> i < |es| && Floor(es, q) == Some(es[i]) && es[i].offset <= q
    ensures Floor(es, q).Some? ==> forall j | 0 <= j < |es| && es[j].offset <= q ::
              es[j].offset < es[i].offset || (es[j].offset == es[i].offset && j <= i)
  {
    i := 0;
    if es != [] {
      var front := es[..|es| - 1];
      i := FloorIsGreatestAndLast(front, q);
      assert forall j | 0 <= j < |es| - 1 :: es[j] == front[j];
      assert (forall j | 0 <= j < |es| :: es[j].offset > q) <==>
             (forall j | 0 <= j < |front| :: front[j].offset > q) && es[|es| - 1].offset > q;
      if Floor(es, q) == Some(es[|es| - 1]) && Floor(es, q) != Floor(front, q) {
        i := |es| - 1;
      } else if es[|es| - 1].offset <= q && Floor(front, q).Some? &&
                Floor(front, q).value.offset <= es[|es| - 1].offset {
        i := |es| - 1;
      }
    }
  }

  // The floor in terms of the mappings
  lemma {:induction false} FloorInMappings(es: seq<Entry>, q: int)
    ensures forall o | o in Mappings(es) && o <= q :: Floor(es, q).Some? && o <= Floor(es, q).value.offset
    ensures Floor(es, q).Some? ==> var f := Floor(es, q).value;
      f.offset <= q && f.offset in Mappings(es) && Mappings(es)[f.offset] == f.loc
  {
    if es != [] {
      var front, last := es[..|es| - 1], es[|es| - 1];
      FloorInMappings(front, q);
      var m := Mappings(es);
      assert m == Mappings(front)[last.offset := last.loc];
      forall o | o in m && o <= q ensures Floor(es, q).Some? && o <= Floor(es, q).value.offset {
        assert o in Mappings(front) || o == last.offset;
      }
    }
  }

  // A sorted list cut where the offsets pass q ends, at the cut, in the floor's offset.
  lemma SearchFindsFloor(es: seq<Entry>, q: int, lo: nat)
    requires var offsets := Sort(Ascending, Offsets(es));
      && lo <= |offsets|
      && (forall k | 0 <= k < lo :: offsets[k] <= q)
      && (forall k | lo <= k < |offsets| :: q < offsets[k])
    ensures var offsets := Sort(Ascending, Offsets(es));
      if lo == 0 then Floor(es, q) == None
      else Floor(es, q).Some? && Floor(es, q).value.offset == offsets[lo - 1]
  {
    var offsets := Sort(Ascending, Offsets(es));
    SortPermutes(Ascending, Offsets(es));
    SortSorts(Ascending, Offsets(es));
    var i := FloorIsGreatestAndLast(es, q);
    hide Sort, Floor;
    if lo == 0 {
      forall j | 0 <= j < |es| ensures es[j].offset > q {
        assert Offsets(es)[j] in multiset(Offsets(es));
        assert es[j].offset in offsets;
      }
    } else {
      var top := offsets[lo - 1];
      assert top in multiset(offsets);
      var j :| 0 <= j < |es| && Offsets(es)[j] == top;
      assert es[j].offset <= q;
      assert Offsets(es)[i] in multiset(offsets);
      var k :| 0 <= k < |offsets| && offsets[k] == es[i].offset;
      assert k < lo;
      assert k < lo - 1 ==> Ascending(offsets[k], top);
    }
  }

  /** The two readers give the same answer for a query, a missing source counting as none, if and
      only if the floor is not a sourced entry at offset 0. */
  lemma ReadersAgreeIff(f: Option<Entry>)
    ensures (var py := Answer(Python, f, None);
             Answer(JavaScript, f, None) == if py.Some? && py.value.source.None? then None else py)
            <==> !(f.Some? && f.value.offset == 0 && f.value.loc.source.Some?)
  {
  }

  // ---- The text build_sourcemap writes ----

  datatype Mapped = Mapped(source: int, line: int, column: int, func: Option<int>)

  // A row to write: code from this offset on comes from there, or from no source.
  datatype Row = Row(offset: int, mapped: Option<Mapped>)

  function RowData(c: Cursor, row: Row): seq<int> {
    match row.mapped
    case None => [row.offset - c.offset]
    case Some(m) =>
      [row.offset - c.offset, m.source - c.source, m.line - c.line, m.column - c.column] +
      (if m.func.Some? then [m.func.value - c.func] else [])
  }

  function AfterRow(c: Cursor, row: Row): Cursor {
    match row.mapped
    case None => c.(offset := row.offset)
    case Some(m) => Cursor(row.offset, m.source, m.line, m.column, if m.func.Some? then m.func.value else c.func)
  }

  function RowEntry(row: Row): Entry {
    Entry(row.offset,
          match row.mapped
          case None => Location(None, None, None, None)
          case Some(m) => Location(Some(m.source), Some(m.line), Some(m.column), m.func))
  }

  function RowEntries(rows: seq<Row>): seq<Entry> {
    seq(|rows|, i requires 0 <= i < |rows| => RowEntry(rows[i]))
  }

  function EncodeRows(rows: seq<Row>, c: Cursor): seq<string> {
    if rows == [] then [] else [EncodeAll(RowData(c, rows[0]))] + EncodeRows(rows[1..], AfterRow(c, rows[0]))
  }

  // ','.join(mappings)
  function MappingsText(rows: seq<Row>): string {
    if rows == [] then "" else Join(EncodeRows(rows, START))
  }

  predicate Small(ns: seq<int>) {
    forall i | 0 <= i < |ns| :: -0x4000_0000 < ns[i] < 0x4000_0000
  }

  // No number written for these rows reaches 2^30 in magnitude.
  predicate SmallDeltas(rows: seq<Row>, c: Cursor) {
    rows == [] || (Small(RowData(c, rows[0])) && SmallDeltas(rows[1..], AfterRow(c, rows[0])))
  }

  lemma {:induction false} EncodeNatNoComma(x: nat)
    ensures NoComma(EncodeNat(x)) && EncodeNat(x) != ""
    decreases x
  {
    if x > 31 {
      DigitValue(32 + x % 32);
      EncodeNatNoComma(x / 32);
    } else {
      DigitValue(x);
    }
  }

  lemma {:induction false} EncodeAllNoComma(ns: seq<int>)
    ensures NoComma(EncodeAll(ns)) && (ns != [] ==> EncodeAll(ns) != "")
  {
    if ns != [] {
      EncodeNatNoComma(Fold(ns[0]));
      EncodeAllNoComma(ns[1..]);
      assert EncodeAll(ns) == EncodeNat(Fold(ns[0])) + EncodeAll(ns[1..]);
    }
  }

  lemma {:induction false} EncodeRowsNoComma(rows: seq<Row>, c: Cursor)
    ensures |EncodeRows(rows, c)| == |rows|
    ensures forall i | 0 <= i < |rows| :: NoComma(EncodeRows(rows, c)[i])
  {
    if rows != [] {
      EncodeAllNoComma(RowData(c, rows[0]));
      EncodeRowsNoComma(rows[1..], AfterRow(c, rows[0]));
    }
  }

  // A row's data, read back unchanged, makes its entry and its cursor.
  lemma RowReads(lang: Language, c: Cursor, row: Row)
    ensures Advance(lang, c, RowData(c, row)) == AfterRow(c, row)
    ensures EntryAt(lang, AfterRow(c, row), |RowData(c, row)|) == RowEntry(row)
  {
  }

  // Read back with any change, it makes another entry.
  lemma ChangedRowDiffers(lang: Language, c: Cursor, row: Row, data: seq<int>)
    requires |data| == |RowData(c, row)| && data != RowData(c, row)
    ensures EntryAt(lang, Advance(lang, c, data), |data|) != RowEntry(row)
  {
    var d := RowData(c, row);
    var i :| 0 <= i < |d| && data[i] != d[i];
  }

  lemma {:induction false} RowsRead(lang: Language, rows: seq<Row>, c: Cursor)
    ensures Entries(lang, EncodeRows(rows, c), c) == Success(RowEntries(rows)) <==>
            lang.Python? || SmallDeltas(rows, c)
  {
    if rows == [] {
      assert RowEntries(rows) == [];
    } else {
      var row, segments := rows[0], EncodeRows(rows, c);
      var data := RowData(c, row);
      var c' := AfterRow(c, row);
      EncodeAllNoComma(data);
      DecodeEncodedAll(lang, data);
      RoundTrip(data);
      RowReads(lang, c, row);
      RowsRead(lang, rows[1..], c');
      assert segments[0] == EncodeAll(data) && segments[1..] == EncodeRows(rows[1..], c');
      assert RowEntries(rows) == [RowEntry(row)] + RowEntries(rows[1..]);
      var read := ReadBackAll(lang, data);
      var rest := Entries(lang, segments[1..], Advance(lang, c, read));
      assert Entries(lang, segments, c) == Before([EntryAt(lang, Advance(lang, c, read), |read|)], rest);
      if read != data {
        ChangedRowDiffers(lang, c, row, read);
      }
      HeadAndTail(EntryAt(lang, Advance(lang, c, read), |read|), rest, RowEntry(row), RowEntries(rows[1..]));
    }
  }

  lemma HeadAndTail(e: Entry, r: Parsed, e': Entry, es: seq<Entry>)
    ensures Before([e], r) == Success([e'] + es) <==> e == e' && r == Success(es)
  {
    if Before([e], r) == Success([e'] + es) {
      assert ([e] + r.value)[0] == e && ([e] + r.value)[1..] == r.value;
      assert ([e'] + es)[0] == e' && ([e'] + es)[1..] == es;
    }
  }

  /** Round trip of a whole map: Python reads back exactly the rows that were written, and
      JavaScript does if and only if no delta reaches 2^30 in magnitude. */
  lemma MapRoundTrip(rows: seq<Row>)
    requires rows != []
    ensures Entries(Python, Split(MappingsText(rows)), START) == Success(RowEntries(rows))
    ensures Entries(JavaScript, Split(MappingsText(rows)), START) == Success(RowEntries(rows)) <==>
            SmallDeltas(rows, START)
  {
    EncodeRowsNoComma(rows, START);
    SplitJoin(EncodeRows(rows, START));
    RowsRead(Python, rows, START);
    RowsRead(JavaScript, rows, START);
  }

  // Both readers answer the query alike, code without a source counting as not found.
  predicate AgreeAt(es: seq<Entry>, q: int) {
    var py := Answer(Python, Floor(es, q), None);
    Answer(JavaScript, Floor(es, q), None) == if py.Some? && py.value.source.None? then None else py
  }

  /** On a map without big deltas the two readers hold the same entries, and they answer every
      query alike if and only if no source is mapped at offset 0. */
  lemma ReadersAgreeOnMap(rows: seq<Row>)
    requires rows != [] && SmallDeltas(rows, START)
    ensures var es := RowEntries(rows);
      && Entries(Python, Split(MappingsText(rows)), START) == Success(es)
      && Entries(JavaScript, Split(MappingsText(rows)), START) == Success(es)
      && ((forall q :: AgreeAt(es, q)) <==> !(0 in Mappings(es) && Mappings(es)[0].source.Some?))
  {
    MapRoundTrip(rows);
    hide Entries, Split, MappingsText, RowEntries, SmallDeltas, Floor, Mappings;
    var es := RowEntries(rows);
    if 0 in Mappings(es) && Mappings(es)[0].source.Some? {
      FloorInMappings(es, 0);
      ReadersAgreeIff(Floor(es, 0));
      assert !AgreeAt(es, 0);
    } else {
      forall q ensures AgreeAt(es, q) {
        FloorInMappings(es, q);
        ReadersAgreeIff(Floor(es, q));
      }
    }
  }

  /** The text of no rows at all is empty, which JavaScript reads and Python trips over. */
  lemma EmptyMap()
    ensures Entries(Python, Split(MappingsText([])), START) == Failure(NoNumber)
    ensures Entries(JavaScript, Split(MappingsText([])), START) == Success([])
  {
    assert Decode(Python, "") == Success([]);
  }

  // The answer to a lookup that comes to this row
  function RowAnswer(row: Row, sources: seq<string>, names: seq<string>): Option<LocationInfo>
    requires row.mapped.Some? ==> 0 <= row.mapped.value.source < |sources|
    requires row.mapped.Some? && row.mapped.value.func.Some? ==> 0 <= row.mapped.value.func.value < |names|
  {
    match row.mapped
    case None => Some(LocationInfo(None, None, None, None))
    case Some(Mapped(source, line, column, func)) =>
      Some(LocationInfo(Some(sources[source]), Some(line), Some(column),
                        match func case None => None case Some(i) => Some(names[i])))
  }

  // Row i is the one whose code the address belongs to: the last at the greatest offset not above it.
  ghost predicate IsRowOf(rows: seq<Row>, i: nat, q: int) {
    && i < |rows| && rows[i].offset <= q
    && forall j | 0 <= j < |rows| && rows[j].offset <= q ::
         rows[j].offset < rows[i].offset || (rows[j].offset == rows[i].offset && j <= i)
  }

  lemma FloorOfRows(rows: seq<Row>, i: nat, q: int)
    requires IsRowOf(rows, i, q)
    ensures Floor(RowEntries(rows), q) == Some(RowEntry(rows[i]))
  {
    var es := RowEntries(rows);
    var j := FloorIsGreatestAndLast(es, q);
    hide Floor;
    assert es[i].offset == rows[i].offset && es[i].offset <= q;
    assert es[j].offset == rows[j].offset;
  }

  /** On a written map, from the text to the answer: both readers answer an address with the row it
      belongs to, its line and column, and its source and function looked up in the tables; except
      that JavaScript finds nothing at code without a source, and Python nothing at offset 0. */
  lemma LookupAnswersRow(lang: Language, rows: seq<Row>, sources: seq<string>, names: seq<string>, i: nat, q: int)
    requires IsRowOf(rows, i, q) && (lang.JavaScript? ==> SmallDeltas(rows, START))
    requires rows[i].mapped.Some? ==> 0 <= rows[i].mapped.value.source < |sources|
    requires rows[i].mapped.Some? && rows[i].mapped.value.func.Some? ==> 0 <= rows[i].mapped.value.func.value < |names|
    ensures var es := Entries(lang, Split(MappingsText(rows)), START);
      && es.Success?
      && Resolve(lang, Answer(lang, Floor(es.value, q), None), sources, names) ==
         Success(if (lang.JavaScript? && rows[i].mapped.None?) || (lang.Python? && rows[i].offset == 0) then None
                 else RowAnswer(rows[i], sources, names))
  {
    MapRoundTrip(rows);
    FloorOfRows(rows, i, q);
    hide *;
    ResolvesRow(lang, rows[i], sources, names);
  }

  lemma ResolvesRow(lang: Language, row: Row, sources: seq<string>, names: seq<string>)
    requires row.mapped.Some? ==> 0 <= row.mapped.value.source < |sources|
    requires row.mapped.Some? && row.mapped.value.func.Some? ==> 0 <= row.mapped.value.func.value < |names|
    ensures Resolve(lang, Answer(lang, Some(RowEntry(row)), None), sources, names) ==
            Success(if (lang.JavaScript? && row.mapped.None?) || (lang.Python? && row.offset == 0) then None
                    else RowAnswer(row, sources, names))
  {
  }

  /** An address before every row has no answer. */
  lemma LookupBeforeRows(lang: Language, rows: seq<Row>, sources: seq<string>, names: seq<string>, q: int)
    requires rows != [] && (lang.JavaScript? ==> SmallDeltas(rows, START))
    requires forall j | 0 <= j < |rows| :: rows[j].offset > q
    ensures var es := Entries(lang, Split(MappingsText(rows)), START);
      es.Success? && Resolve(lang, Answer(lang, Floor(es.value, q), None), sources, names) == Success(None)
  {
    MapRoundTrip(rows);
    var es := RowEntries(rows);
    var i := FloorIsGreatestAndLast(es, q);
    assert forall j | 0 <= j < |es| :: es[j].offset == rows[j].offset;
    hide Entries, Split, MappingsText, Floor, SmallDeltas;
  }

  /** A segment of the text has its numbers added to a position that starts at offset 0, source 0,
      line 1, column 1 and function 0; the number of its fields says what it tells. */
  lemma FirstSegmentTells(lang: Language, data: seq<int>)
    requires 1 <= |data| <= 5
    ensures EntryAt(lang, Advance(lang, START, data), |data|) ==
            Entry(data[0], Location(
              if |data| >= 2 then Some(data[1]) else None,
              if |data| >= 3 then Some(1 + data[2]) else None,
              if |data| >= 4 then Some(1 + data[3]) else None,
              if |data| == 5 then Some(data[4]) else None))
  {
  }

  /** The readers differ on a segment of more than five numbers: only JavaScript takes its fifth. */
  lemma LongSegmentDiffers(data: seq<int>)
    requires |data| > 5
    ensures EntryAt(Python, Advance(Python, START, data), |data|).loc.func == None
    ensures EntryAt(JavaScript, Advance(JavaScript, START, data), |data|).loc.func == Some(data[4])
  {
  }

  // An index that Python's list of this length does not take
  predicate Outside(index: Option<int>, length: nat) {
    index.Some? && (index.value >= length || index.value + length < 0)
  }

  /** Beyond the tables: a lookup raises exactly if it is Python's and an index lies outside even when
      counted from the end; Python counts a negative one from the end, JavaScript finds nothing. */
  lemma BeyondTables(lang: Language, loc: Location, i: int, sources: seq<string>, names: seq<string>)
    requires loc.source == Some(i)
    ensures var r := Resolve(lang, Some(loc), sources, names);
      && (r.Failure? <==> lang.Python? && (Outside(loc.source, |sources|) || Outside(loc.func, |names|)))
      && (r.Success? && 0 <= i < |sources| ==> r.value.Some? && r.value.value.source == Some(sources[i]))
      && (r.Success? && !(0 <= i < |sources|) && lang.JavaScript? ==> r.value.Some? && r.value.value.source == None)
      && (r.Success? && i < 0 && lang.Python? ==> r.value.Some? && r.value.value.source == Some(sources[|sources| + i]))
  {
  }
}
