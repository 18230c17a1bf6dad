/** Printing CSV exports, against a reader written from section 2 of RFC 4180 with LF line ends. */
module Csv {
  import opened Listing
  import opened Text

  // ---- Values ----

  /** A cell value; dates, numbers and structures come with the text JavaScript gives them. */
  datatype Value = Null | Date(iso: string) | Flag(isSet: bool) | Number(digits: string) | Str(text: string)
                 | Structure(json: string)

  /** Null prints as nothing, and the flags as words a reader can tell apart. */
  function FormatCsvValue(value: Value): (r: string)
    ensures value == Null ==> r == ""
    ensures value == Flag(true) ==> r == "true"
    ensures value == Flag(false) ==> r == "false"
  {
    match value
    case Null => ""
    case Date(iso) => iso
    case Flag(isSet) => if isSet then "true" else "false"
    case Number(digits) => digits
    case Str(text) => text
    case Structure(json) => json
  }

  function Formatted(row: seq<Value>): (r: seq<string>)
    ensures |r| == |row| && forall k :: 0 <= k < |row| ==> r[k] == FormatCsvValue(row[k])
  {
    seq(|row|, k requires 0 <= k < |row| => FormatCsvValue(row[k]))
  }

  function FormattedRows(rows: seq<seq<Value>>): (r: seq<seq<string>>)
    ensures |r| == |rows| && forall k :: 0 <= k < |rows| ==> r[k] == Formatted(rows[k])
  {
    seq(|rows|, k requires 0 <= k < |rows| => Formatted(rows[k]))
  }

  // ---- Printing ----

  predicate IsSpecial(c: char) { c == '"' || c == ',' || c == '\n' || c == '\r' }

  predicate Plain(s: string) { forall k :: 0 <= k < |s| ==> !IsSpecial(s[k]) }

  function Doubled(s: string): string {
    if s == "" then "" else (if s[0] == '"' then "\"\"" else [s[0]]) + Doubled(s[1..])
  }

  function EscapeCsvValue(value: string): string { if Plain(value) then value else "\"" + Doubled(value) + "\"" }

  function Escaped(cells: seq<string>): (r: seq<string>)
    ensures |r| == |cells| && forall k :: 0 <= k < |cells| ==> r[k] == EscapeCsvValue(cells[k])
  {
    seq(|cells|, k requires 0 <= k < |cells| => EscapeCsvValue(cells[k]))
  }

  function Line(cells: seq<string>): string { Join(Escaped(cells), ',') }

  function Lines(records: seq<seq<string>>): (r: seq<string>)
    ensures |r| == |records| && forall k :: 0 <= k < |records| ==> r[k] == Line(records[k])
  {
    seq(|records|, k requires 0 <= k < |records| => Line(records[k]))
  }

  /** A header line followed by one line per row, all of them with at least one column. */
  ghost predicate Printable(records: seq<seq<string>>) {
    records != [] && forall k :: 0 <= k < |records| ==> records[k] != []
  }

  function Print(records: seq<seq<string>>): string { Join(Lines(records), '\n') }

  lemma {:induction false} PlainUnchanged(cells: seq<string>)
    requires forall k :: 0 <= k < |cells| ==> Plain(cells[k])
    ensures Escaped(cells) == cells
  {}

  lemma LinesSnoc(rows: seq<seq<string>>, i: nat)
    requires i < |rows|
    ensures Lines(rows[..i + 1]) == Lines(rows[..i]) + [Line(rows[i])]
  {}

  lemma PlainHeaders(headers: seq<string>, rows: seq<seq<string>>)
    requires forall k :: 0 <= k < |headers| ==> Plain(headers[k])
    ensures [Join(headers, ',')] + Lines(rows) == Lines([headers] + rows)
  {
    PlainUnchanged(headers);
    HeaderLine(headers, rows);
  }

  lemma HeaderLine(headers: seq<string>, rows: seq<seq<string>>)
    ensures [Line(headers)] + Lines(rows) == Lines([headers] + rows)
  {
    var a, b := [Line(headers)] + Lines(rows), Lines([headers] + rows);
    forall k | 0 <= k < |a| ensures a[k] == b[k] {
      if k > 0 { assert ([headers] + rows)[k] == rows[k - 1]; }
    }
  }

  /** buildCsvDocument: headers are joined as they are, so the document prints them as cells when they are plain. */
  method BuildCsvDocument(headers: seq<string>, rows: seq<seq<Value>>) returns (document: string)
    ensures document == Join([Join(headers, ',')] + Lines(FormattedRows(rows)), '\n')
    ensures (forall k :: 0 <= k < |headers| ==> Plain(headers[k])) ==>
              document == Print([headers] + FormattedRows(rows))
  {
    ghost var cells := FormattedRows(rows);
    var lines := [Join(headers, ',')];
    for i := 0 to |rows|
      invariant lines == [Join(headers, ',')] + Lines(cells[..i])
    {
      LinesSnoc(cells, i);
      lines := lines + [Line(Formatted(rows[i]))];
    }
    assert cells[..|rows|] == cells;
    if forall k :: 0 <= k < |headers| ==> Plain(headers[k]) {
      PlainHeaders(headers, cells);
    }
    document := Join(lines, '\n');
  }

  // ---- Reading ----

  /** Where the reader stands in a field; `Closing` has just seen a quote inside a quoted field. */
  datatype Mode = Start | Bare | Quoted | Closing

  datatype Reader = Reader(records: seq<seq<string>>, record: seq<string>, field: string, mode: Mode)

  function EndField(r: Reader): Reader { Reader(r.records, r.record + [r.field], "", Start) }

  function EndRecord(r: Reader): Reader { Reader(r.records + [r.record + [r.field]], [], "", Start) }

  /** One character; None where the grammar has no continuation. */
  function Feed(r: Reader, c: char): Option<Reader> {
    match r.mode
    case Start =>
      if c == '"' then Some(r.(mode := Quoted))
      else if c == ',' then Some(EndField(r))
      else if c == '\n' then Some(EndRecord(r))
      else if c == '\r' then None
      else Some(r.(field := [c], mode := Bare))
    case Bare =>
      if c == ',' then Some(EndField(r))
      else if c == '\n' then Some(EndRecord(r))
      else if c == '"' || c == '\r' then None
      else Some(r.(field := r.field + [c]))
    case Quoted =>
      if c == '"' then Some(r.(mode := Closing)) else Some(r.(field := r.field + [c]))
    case Closing =>
      if c == '"' then Some(r.(field := r.field + [c], mode := Quoted))
      else if c == ',' then Some(EndField(r))
      else if c == '\n' then Some(EndRecord(r))
      else None
  }

  function Run(r: Reader, s: string): Option<Reader>
    decreases |s|
  {
    if s == "" then Some(r)
    else
      var next := Feed(r, s[0]);
      if next.None? then None else Run(next.value, s[1..])
  }

  const FRESH := Reader([], [], "", Start)

  /** The last record may or may not end with a line break. */
  function Finish(r: Reader): Option<seq<seq<string>>> {
    if r.mode.Quoted? then None
    else if r.mode.Start? && r.record == [] then Some(r.records)
    else Some(EndRecord(r).records)
  }

  function Parse(s: string): Option<seq<seq<string>>> {
    var r := Run(FRESH, s);
    if r.None? then None else Finish(r.value)
  }

  // ---- The round trip ----

  lemma {:induction false} RunAppend(r: Reader, a: string, b: string)
    ensures Run(r, a + b) == if Run(r, a).None? then None else Run(Run(r, a).value, b)
    decreases |a|
  {
    if a == "" {
      assert a + b == b;
    } else {
      assert (a + b)[0] == a[0] && (a + b)[1..] == a[1..] + b;
      if Feed(r, a[0]).Some? { RunAppend(Feed(r, a[0]).value, a[1..], b); }
    }
  }

  lemma {:induction false} RunBare(r: Reader, s: string)
    requires r.mode.Bare? && Plain(s)
    ensures Run(r, s) == Some(r.(field := r.field + s))
    decreases |s|
  {
    if s == "" {
      assert r.field + s == r.field;
    } else {
      RunBare(r.(field := r.field + [s[0]]), s[1..]);
      assert r.field + [s[0]] + s[1..] == r.field + s;
    }
  }

  lemma {:induction false} RunQuoted(r: Reader, s: string)
    requires r.mode.Quoted?
    ensures Run(r, Doubled(s)) == Some(r.(field := r.field + s))
    decreases |s|
  {
    if s == "" {
      assert r.field + s == r.field;
    } else {
      var next := r.(field := r.field + [s[0]]);
      RunQuoted(next, s[1..]);
      assert next.field + s[1..] == r.field + s;
      var head := if s[0] == '"' then "\"\"" else [s[0]];
      RunAppend(r, head, Doubled(s[1..]));
      if s[0] == '"' {
        var mid := r.(mode := Closing);
        assert head[1..] == "\"" && Feed(r, head[0]) == Some(mid);
        assert "\""[1..] == "" && Feed(mid, '"') == Some(next);
        assert Run(mid, "\"") == Some(next);
        assert Run(r, head) == Some(next);
      } else {
        assert head[1..] == "";
        assert Run(r, head) == Some(next);
      }
    }
  }

  function ModeAfter(cell: string): Mode { if !Plain(cell) then Closing else if cell == "" then Start else Bare }

  lemma RunCons(r: Reader, s: string, next: Reader)
    requires s != "" && Feed(r, s[0]) == Some(next)
    ensures Run(r, s) == Run(next, s[1..])
  {}

  lemma PlainRead(r: Reader, cell: string)
    requires r.mode.Start? && r.field == "" && Plain(cell) && cell != ""
    ensures Run(r, cell) == Some(r.(field := cell, mode := Bare))
  {
    var first := r.(field := [cell[0]], mode := Bare);
    RunCons(r, cell, first);
    RunBare(first, cell[1..]);
    assert [cell[0]] + cell[1..] == cell;
  }

  lemma QuotedRead(r: Reader, cell: string)
    requires r.mode.Start? && r.field == ""
    ensures Run(r, "\"" + Doubled(cell) + "\"") == Some(r.(field := cell, mode := Closing))
  {
    var inside, text := r.(mode := Quoted), Doubled(cell) + "\"";
    var closed := inside.(field := cell);
    assert ("\"" + Doubled(cell) + "\"")[1..] == text;
    RunCons(r, "\"" + Doubled(cell) + "\"", inside);
    RunQuoted(inside, cell);
    assert "" + cell == cell;
    RunAppend(inside, Doubled(cell), "\"");
    RunCons(closed, "\"", closed.(mode := Closing));
  }

  /** Reading an escaped cell back gives the cell. */
  lemma CellRead(r: Reader, cell: string)
    requires r.mode.Start? && r.field == ""
    ensures Run(r, EscapeCsvValue(cell)) == Some(r.(field := cell, mode := ModeAfter(cell)))
  {
    if !Plain(cell) {
      QuotedRead(r, cell);
    } else if cell != "" {
      PlainRead(r, cell);
    }
  }

  /** What follows a text that has been read. */
  lemma RunThen(r: Reader, text: string, read: Reader, c: char, next: Reader, rest: string)
    requires Run(r, text) == Some(read) && Feed(read, c) == Some(next)
    ensures Run(r, text + [c] + rest) == Run(next, rest)
  {
    assert text + [c] + rest == text + ([c] + rest);
    RunAppend(r, text, [c] + rest);
    RunCons(read, [c] + rest, next);
    assert ([c] + rest)[1..] == rest;
  }

  /** A comma after a cell ends the field. */
  lemma CellEnds(r: Reader, cell: string, rest: string)
    requires r.mode.Start? && r.field == ""
    ensures Run(r, EscapeCsvValue(cell) + [','] + rest) == Run(Reader(r.records, r.record + [cell], "", Start), rest)
  {
    CellRead(r, cell);
    var read := r.(field := cell, mode := ModeAfter(cell));
    RunThen(r, EscapeCsvValue(cell), read, ',', EndField(read), rest);
  }

  lemma LineCons(cells: seq<string>)
    requires |cells| >= 2
    ensures Line(cells) == EscapeCsvValue(cells[0]) + [','] + Line(cells[1..])
  {
    assert Escaped(cells)[1..] == Escaped(cells[1..]);
  }

  /** The reader inside the last cell of a line. */
  function AfterLine(r: Reader, cells: seq<string>): Reader
    requires cells != []
  {
    Reader(r.records, r.record + cells[..|cells| - 1], cells[|cells| - 1], ModeAfter(cells[|cells| - 1]))
  }

  lemma AfterLineCons(r: Reader, cells: seq<string>)
    requires |cells| >= 2
    ensures AfterLine(Reader(r.records, r.record + [cells[0]], "", Start), cells[1..]) == AfterLine(r, cells)
  {
    var rest := cells[1..];
    assert rest[|rest| - 1] == cells[|cells| - 1];
    assert r.record + [cells[0]] + rest[..|rest| - 1] == r.record + cells[..|cells| - 1];
  }

  /**
   A printed line, read at the start of a record: every cell but the last is in the record, the last is in the field.
   */
  lemma {:induction false} LineRead(r: Reader, cells: seq<string>)
    requires r.mode.Start? && r.field == "" && cells != []
    ensures Run(r, Line(cells)) == Some(AfterLine(r, cells))
    decreases |cells|
  {
    if |cells| == 1 {
      CellRead(r, cells[0]);
      assert r.record + cells[..0] == r.record;
    } else {
      LineCons(cells);
      CellEnds(r, cells[0], Line(cells[1..]));
      LineRead(Reader(r.records, r.record + [cells[0]], "", Start), cells[1..]);
      AfterLineCons(r, cells);
    }
  }

  lemma LineRecord(r: Reader, cells: seq<string>)
    requires r.record == [] && cells != []
    ensures EndRecord(AfterLine(r, cells)) == Reader(r.records + [cells], [], "", Start)
  {
    assert [] + cells[..|cells| - 1] + [cells[|cells| - 1]] == cells;
  }

  lemma LineEnds(r: Reader, cells: seq<string>, rest: string)
    requires r.mode.Start? && r.field == "" && r.record == [] && cells != []
    ensures Run(r, Line(cells) + ['\n'] + rest) == Run(Reader(r.records + [cells], [], "", Start), rest)
  {
    LineRead(r, cells);
    var read := AfterLine(r, cells);
    RunThen(r, Line(cells), read, '\n', EndRecord(read), rest);
    LineRecord(r, cells);
  }

  /** The reader after a printed table: its last cell still open. */
  function AfterTable(base: seq<seq<string>>, records: seq<seq<string>>): Reader
    requires records != [] && records[|records| - 1] != []
  {
    var last := records[|records| - 1];
    Reader(base + records[..|records| - 1], last[..|last| - 1], last[|last| - 1], ModeAfter(last[|last| - 1]))
  }

  lemma AfterTableCons(base: seq<seq<string>>, records: seq<seq<string>>)
    requires |records| >= 2 && records[|records| - 1] != []
    ensures AfterTable(base + [records[0]], records[1..]) == AfterTable(base, records)
  {
    var rest := records[1..];
    assert rest[|rest| - 1] == records[|records| - 1];
    assert base + [records[0]] + rest[..|rest| - 1] == base + records[..|records| - 1];
  }

  lemma {:induction false} PrintRead(base: seq<seq<string>>, records: seq<seq<string>>)
    requires Printable(records)
    ensures Run(Reader(base, [], "", Start), Print(records)) == Some(AfterTable(base, records))
    decreases |records|
  {
    var r := Reader(base, [], "", Start);
    if |records| == 1 {
      LineRead(r, records[0]);
      assert base + records[..0] == base && [] + records[0][..|records[0]| - 1] == records[0][..|records[0]| - 1];
    } else {
      var rest := records[1..];
      assert Lines(records)[1..] == Lines(rest);
      LineEnds(r, records[0], Print(rest));
      PrintRead(base + [records[0]], rest);
      AfterTableCons(base, records);
    }
  }

  /**
   Round trip, exactly: reading a printed table returns its cells if and only if the last line is not a single empty
   cell, which the optional final line break makes indistinguishable from no line.
   */
  lemma RoundTrip(records: seq<seq<string>>)
    requires Printable(records)
    ensures Parse(Print(records)) == Some(records) <==> records[|records| - 1] != [""]
  {
    PrintRead([], records);
    FinishTable(records);
    assert |records[..|records| - 1]| < |records|;
  }

  lemma FinishTable(records: seq<seq<string>>)
    requires Printable(records)
    ensures Finish(AfterTable([], records)) ==
            Some(if records[|records| - 1] == [""] then records[..|records| - 1] else records)
  {
    var n := |records| - 1;
    var last := records[n];
    var r := AfterTable([], records);
    assert r.records == records[..n];
    if last == [""] {
      assert r == Reader(records[..n], [], "", Start);
    } else {
      assert last[..|last| - 1] + [last[|last| - 1]] == last;
      assert |last| == 1 ==> last == [last[0]];
      assert EndRecord(r).records == records[..n] + [last] == records;
    }
  }

  /** Tables of at least two columns that print alike are the same table. */
  lemma DistinctTablesPrintDistinctly(a: seq<seq<string>>, b: seq<seq<string>>)
    requires Printable(a) && Printable(b) && |a[|a| - 1]| >= 2 && |b[|b| - 1]| >= 2 && Print(a) == Print(b)
    ensures a == b
  {
    RoundTrip(a);
    RoundTrip(b);
  }
}
