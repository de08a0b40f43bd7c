// The CSV writer and reader of the Salesforce connector (connectors/salesforce/src/main.rs).

module Csv {
  import opened Wrappers

  /** A JSON cell: text, null, or anything else by its JSON text. */
  datatype Cell = Text(s: string) | Nil | Other(json: string)

  datatype Entry = Entry(key: string, cell: Cell)

  /** A row, with its keys in the order the map gives them. */
  type Row = seq<Entry>

  function Plain(c: Cell): (s: string) {
    match c case Text(s) => s case Nil => "" case Other(json) => json
  }

  predicate Special(c: char) { c == ',' || c == '"' || c == '\n' || c == '\r' }

  predicate NeedsQuotes(s: string) { exists i :: 0 <= i < |s| && Special(s[i]) }

  function Escaped(s: string): (r: string) {
    if s == "" then "" else (if s[0] == '"' then "\"\"" else [s[0]]) + Escaped(s[1..])
  }

  function CsvCell(s: string): (r: string) {
    if NeedsQuotes(s) then "\"" + Escaped(s) + "\"" else s
  }

  function Find(r: Row, k: string): (c: Option<Cell>) {
    if r == [] then None else if r[0].key == k then Some(r[0].cell) else Find(r[1..], k)
  }

  /** What a row holds under a column, as text. */
  function TextAt(r: Row, k: string): (s: string) {
    match Find(r, k) case Some(c) => Plain(c) case None => ""
  }

  // ---------- writing ----------

  function WithKeys(cols: seq<string>, r: Row): (res: seq<string>)
    decreases |r|
  {
    if r == [] then cols
    else WithKeys(if r[0].key in cols then cols else cols + [r[0].key], r[1..])
  }

  /** The union of the keys, in the order they are first seen. */
  function Columns(cols: seq<string>, rows: seq<Row>): (res: seq<string>)
    decreases |rows|
  {
    if rows == [] then cols else Columns(WithKeys(cols, rows[0]), rows[1..])
  }

  function Cells(cols: seq<string>, r: Row): (res: seq<string>) {
    seq(|cols|, i requires 0 <= i < |cols| => TextAt(r, cols[i]))
  }

  function Line(cells: seq<string>): (s: string) {
    if cells == [] then "" else if |cells| == 1 then CsvCell(cells[0])
    else CsvCell(cells[0]) + "," + Line(cells[1..])
  }

  function Lines(table: seq<seq<string>>): (s: string) {
    if table == [] then "" else Line(table[0]) + "\n" + Lines(table[1..])
  }

  /** The header and the rows, as text. */
  function Table(rows: seq<Row>): (t: seq<seq<string>>) {
    var cols := Columns([], rows);
    [cols] + seq(|rows|, i requires 0 <= i < |rows| => Cells(cols, rows[i]))
  }

  method JoinCells(cells: seq<string>) returns (line: string)
    ensures line == Line(cells)
  {
    line := "";
    var i := |cells|;
    while i > 0
      invariant 0 <= i <= |cells| && line == Line(cells[i..])
    {
      i := i - 1;
      line := if i == |cells| - 1 then CsvCell(cells[i]) else CsvCell(cells[i]) + "," + line;
      assert cells[i..][1..] == cells[i + 1..];
    }
    assert cells[0..] == cells;
  }

  /** The keys of all rows, by first sight. */
  method ColumnsOf(rows: seq<Row>) returns (cols: seq<string>)
    ensures cols == Columns([], rows)
  {
    cols := [];
    var i := 0;
    while i < |rows|
      invariant 0 <= i <= |rows| && Columns(cols, rows[i..]) == Columns([], rows)
    {
      var r, j := rows[i], 0;
      ghost var before := cols;
      while j < |r|
        invariant 0 <= j <= |r| && WithKeys(cols, r[j..]) == WithKeys(before, r)
      {
        assert r[j..][1..] == r[j + 1..];
        if r[j].key !in cols { cols := cols + [r[j].key]; }
        j := j + 1;
      }
      assert rows[i..][1..] == rows[i + 1..];
      i := i + 1;
    }
  }

  method RowsToCsv(rows: seq<Row>) returns (cols: seq<string>, out: string)
    ensures cols == Columns([], rows) && out == Lines(Table(rows))
  {
    cols := ColumnsOf(rows);
    var header := JoinCells(cols);
    out := header + "\n";
    ghost var table := Table(rows);
    var i := 0;
    assert Lines(table[..1]) == out by { assert table[..1][1..] == []; }
    while i < |rows|
      invariant 0 <= i <= |rows| && out == Lines(table[..i + 1])
    {
      var line := JoinCells(Cells(cols, rows[i]));
      LinesPush(table[..i + 1], table[i + 1]);
      assert table[..i + 2] == table[..i + 1] + [table[i + 1]];
      out := out + line + "\n";
      i := i + 1;
    }
    assert table[..|rows| + 1] == table;
  }

  lemma {:induction false} LinesPush(table: seq<seq<string>>, r: seq<string>)
    ensures Lines(table + [r]) == Lines(table) + Line(r) + "\n"
  {
    hide Line;
    if table == [] {
      assert table + [r] == [r] && [r][1..] == [];
      assert "" + Line(r) + "\n" == Line(r) + "\n" + "";
    } else {
      LinesPush(table[1..], r);
      assert (table + [r])[0] == table[0] && (table + [r])[1..] == table[1..] + [r];
      var x, y, z := Line(table[0]) + "\n", Lines(table[1..]), Line(r) + "\n";
      assert y + Line(r) + "\n" == y + z;
      assert x + (y + z) == (x + y) + z;
      assert (x + y) + z == x + y + Line(r) + "\n";
    }
  }

  // ---------- reading ----------

  datatype Reader = Reader(records: seq<seq<string>>, record: seq<string>, field: string, inQuotes: bool)

  /** One character outside quotes. */
  function Outside(p: Reader, c: char): (r: Reader) {
    if c == '"' then p.(inQuotes := true)
    else if c == ',' then p.(record := p.record + [p.field], field := "")
    else if c == '\n' then p.(records := p.records + [p.record + [p.field]], record := [], field := "")
    else if c == '\r' then p
    else p.(field := p.field + [c])
  }

  function Scan(p: Reader, s: string): (r: Reader)
    decreases |s|
  {
    if s == "" then p
    else if !p.inQuotes then Scan(Outside(p, s[0]), s[1..])
    else if s[0] != '"' then Scan(p.(field := p.field + [s[0]]), s[1..])
    else if |s| > 1 && s[1] == '"' then Scan(p.(field := p.field + ['"']), s[2..])
    else Scan(p.(inQuotes := false), s[1..])
  }

  /** What is left over at the end of the text is one more record. */
  function Closed(p: Reader): (r: seq<seq<string>>) {
    if p.field != "" || p.record != [] then p.records + [p.record + [p.field]] else p.records
  }

  const START := Reader([], [], "", false)

  function Parse(data: string): (r: seq<seq<string>>) { Closed(Scan(START, data)) }

  method ParseCsv(data: string) returns (records: seq<seq<string>>)
    ensures records == Parse(data)
  {
    records := [];
    var record: seq<string>, field, inQuotes := [], "", false;
    var i := 0;
    assert data[0..] == data;
    while i < |data|
      invariant 0 <= i <= |data|
      invariant Scan(Reader(records, record, field, inQuotes), data[i..]) == Scan(START, data)
    {
      var c := data[i];
      assert data[i..][0] == c && data[i..][1..] == data[i + 1..];
      i := i + 1;
      if inQuotes {
        if c == '"' {
          if i < |data| && data[i] == '"' {
            assert data[i - 1..][1] == '"' && data[i - 1..][2..] == data[i + 1..];
            field := field + ['"'];
            i := i + 1;
          } else {
            inQuotes := false;
          }
        } else {
          field := field + [c];
        }
      } else {
        match c
        case '"' => inQuotes := true;
        case ',' => record, field := record + [field], "";
        case '\n' => records, record, field := records + [record + [field]], [], "";
        case '\r' =>
        case _ => field := field + [c];
      }
    }
    if field != "" || record != [] {
      records := records + [record + [field]];
    }
  }

  // ---------- the round trip ----------

  lemma {:induction false} ReadPlain(p: Reader, s: string, rest: string)
    requires !p.inQuotes && !NeedsQuotes(s)
    ensures Scan(p, s + rest) == Scan(p.(field := p.field + s), rest)
    decreases |s|
  {
    if s == "" {
      assert s + rest == rest && p.field + s == p.field;
    } else {
      assert !Special(s[0]);
      assert forall i :: 0 <= i < |s[1..]| ==> s[1..][i] == s[i + 1];
      assert (s + rest)[0] == s[0] && (s + rest)[1..] == s[1..] + rest;
      var p' := p.(field := p.field + [s[0]]);
      ReadPlain(p', s[1..], rest);
      assert p'.field + s[1..] == p.field + s;
    }
  }

  lemma {:induction false} ReadQuoted(p: Reader, s: string, rest: string)
    requires p.inQuotes && (rest == "" || rest[0] != '"')
    ensures Scan(p, Escaped(s) + "\"" + rest) == Scan(p.(field := p.field + s, inQuotes := false), rest)
    decreases |s|
  {
    var text := Escaped(s) + "\"" + rest;
    if s == "" {
      assert text == "\"" + rest && text[0] == '"' && text[1..] == rest;
      assert p.field + s == p.field;
    } else {
      var tail := Escaped(s[1..]) + "\"" + rest;
      var p' := p.(field := p.field + [s[0]]);
      if s[0] == '"' {
        assert text == "\"\"" + tail && text[1] == '"' && text[2..] == tail;
      } else {
        assert text == [s[0]] + tail && text[1..] == tail;
      }
      ReadQuoted(p', s[1..], rest);
      assert p'.field + s[1..] == p.field + s;
    }
  }

  lemma {:induction false} ReadOne(p: Reader, c: char, rest: string)
    requires !p.inQuotes
    ensures Scan(p, [c] + rest) == Scan(Outside(p, c), rest)
  {
    assert ([c] + rest)[0] == c && ([c] + rest)[1..] == rest;
  }

  /** A written cell, followed by a separator, is read back as one field. */
  lemma {:induction false} ReadCell(p: Reader, s: string, sep: char, rest: string)
    requires !p.inQuotes && p.field == "" && (sep == ',' || sep == '\n')
    ensures Scan(p, CsvCell(s) + [sep] + rest) == Scan(Outside(p.(field := s), sep), rest)
  {
    hide Scan, Escaped;
    var after := [sep] + rest;
    assert "" + s == s;
    if NeedsQuotes(s) {
      var body := Escaped(s) + "\"" + after;
      assert CsvCell(s) + [sep] + rest == ['"'] + body;
      ReadOne(p, '"', body);
      ReadQuoted(p.(inQuotes := true), s, after);
    } else {
      assert CsvCell(s) + [sep] + rest == s + after;
      ReadPlain(p, s, after);
    }
    ReadOne(p.(field := s), sep, rest);
  }

  lemma {:induction false} ReadLine(p: Reader, cells: seq<string>, rest: string)
    requires !p.inQuotes && p.field == "" && cells != []
    ensures Scan(p, Line(cells) + "\n" + rest) ==
            Scan(p.(records := p.records + [p.record + cells], record := []), rest)
    decreases |cells|
  {
    var text := Line(cells) + "\n" + rest;
    if |cells| == 1 {
      ReadCell(p, cells[0], '\n', rest);
      assert cells == [cells[0]];
    } else {
      var tail := Line(cells[1..]) + "\n" + rest;
      assert text == CsvCell(cells[0]) + [','] + tail;
      ReadCell(p, cells[0], ',', tail);
      var p' := p.(record := p.record + [cells[0]]);
      ReadLine(p', cells[1..], rest);
      assert p'.record + cells[1..] == p.record + cells;
    }
  }

  lemma {:induction false} ReadLines(p: Reader, table: seq<seq<string>>)
    requires !p.inQuotes && p.field == "" && p.record == []
    requires forall i :: 0 <= i < |table| ==> table[i] != []
    ensures Scan(p, Lines(table)) == p.(records := p.records + table)
    decreases |table|
  {
    if table == [] {
      assert p.records + table == p.records;
    } else {
      ReadLine(p, table[0], Lines(table[1..]));
      var p' := p.(records := p.records + [table[0]]);
      assert [] + table[0] == table[0];
      ReadLines(p', table[1..]);
      assert p'.records + table[1..] == p.records + table;
    }
  }

  /** A line with no cells reads back as one empty field. */
  lemma {:induction false} ReadEmptyLines(p: Reader, table: seq<seq<string>>)
    requires !p.inQuotes && p.field == "" && p.record == []
    requires forall i :: 0 <= i < |table| ==> table[i] == []
    ensures var blank := seq(|table|, i => [""]);
            Scan(p, Lines(table)) == p.(records := p.records + blank)
    decreases |table|
  {
    var blank := seq(|table|, i => [""]);
    if table == [] {
      assert p.records + blank == p.records;
    } else {
      var text := Lines(table);
      assert text == "\n" + Lines(table[1..]) && text[0] == '\n' && text[1..] == Lines(table[1..]);
      var p' := p.(records := p.records + [[""]]);
      assert [] + [""] == [""];
      ReadEmptyLines(p', table[1..]);
      assert p'.records + seq(|table| - 1, i => [""]) == p.records + blank;
    }
  }

  /**
   * Reading back what was written gives the header and every row's cells, whatever commas,
   * quotes and line breaks they hold, exactly when there is at least one column. With none,
   * each empty line comes back as a record of one empty field.
   */
  lemma {:induction false} CsvRoundTrip(rows: seq<Row>)
    ensures Parse(Lines(Table(rows))) == Table(rows) <==> Columns([], rows) != []
    ensures Columns([], rows) == [] ==> Parse(Lines(Table(rows))) == seq(|rows| + 1, i => [""])
  {
    hide Lines, Scan;
    var table := Table(rows);
    if Columns([], rows) != [] {
      ReadLines(START, table);
      assert [] + table == table;
    } else {
      NoColumns(rows);
      assert Parse(Lines(table))[0] == [""] != table[0];
    }
  }

  /** With no columns every line is empty, the header's too. */
  lemma {:induction false} NoColumns(rows: seq<Row>)
    requires Columns([], rows) == []
    ensures Parse(Lines(Table(rows))) == seq(|rows| + 1, i => [""])
  {
    hide Lines, Scan;
    ReadEmptyLines(START, Table(rows));
    assert [] + seq(|rows| + 1, i => [""]) == seq(|rows| + 1, i => [""]);
  }

  /** A cell is quoted exactly when a comma, a quote or a line break is in it. */
  lemma {:induction false} CellLaw(s: string)
    ensures CsvCell(s) == if ',' in s || '"' in s || '\n' in s || '\r' in s then "\"" + Escaped(s) + "\"" else s
    ensures '"' !in s ==> Escaped(s) == s
  {
    assert NeedsQuotes(s) <==> ',' in s || '"' in s || '\n' in s || '\r' in s;
    if '"' !in s { Unescaped(s); }
  }

  lemma {:induction false} Unescaped(s: string)
    requires '"' !in s
    ensures Escaped(s) == s
    decreases |s|
  {
    if s != "" {
      Unescaped(s[1..]);
      assert [s[0]] + s[1..] == s;
    }
  }

  /** Every quote in it is doubled. */
  lemma {:induction false} QuotesDoubled(a: string, b: string)
    ensures Escaped(a + "\"" + b) == Escaped(a) + "\"\"" + Escaped(b)
    decreases |a|
  {
    var s := a + "\"" + b;
    if a == "" {
      assert s == "\"" + b && s[0] == '"' && s[1..] == b;
    } else {
      assert s[0] == a[0] && s[1..] == a[1..] + "\"" + b;
      QuotesDoubled(a[1..], b);
      var x := if a[0] == '"' then "\"\"" else [a[0]];
      assert x + (Escaped(a[1..]) + "\"\"" + Escaped(b)) == x + Escaped(a[1..]) + "\"\"" + Escaped(b);
    }
  }

  /** Commas stand between cells, and a line break behind each line. */
  lemma {:induction false} PlainText()
    ensures Line(["id", "name"]) == "id,name"
    ensures Line(["7", "", "x"]) == "7,,x"
    ensures Lines([["k"], ["v"]]) == "k\nv\n"
  {
  }

  // ---------- the columns ----------

  predicate Distinct(xs: seq<string>) { forall i, j :: 0 <= i < j < |xs| ==> xs[i] != xs[j] }

  ghost predicate HasKey(r: Row, k: string) { exists i :: 0 <= i < |r| && r[i].key == k }

  lemma {:induction false} WithKeysSound(cols: seq<string>, r: Row)
    requires Distinct(cols)
    ensures Distinct(WithKeys(cols, r)) && cols <= WithKeys(cols, r)
    ensures forall k :: k in WithKeys(cols, r) <==> k in cols || HasKey(r, k)
    decreases |r|
  {
    if r != [] {
      var cols' := if r[0].key in cols then cols else cols + [r[0].key];
      WithKeysSound(cols', r[1..]);
      forall k ensures HasKey(r, k) <==> r[0].key == k || HasKey(r[1..], k) {
        if HasKey(r, k) {
          var i :| 0 <= i < |r| && r[i].key == k;
          if i > 0 { assert r[1..][i - 1].key == k; }
        }
        if HasKey(r[1..], k) {
          var i :| 0 <= i < |r[1..]| && r[1..][i].key == k;
          assert r[i + 1].key == k;
        }
      }
    }
  }

  /** The header names every key of every row exactly once. */
  lemma {:induction false} ColumnsSound(cols: seq<string>, rows: seq<Row>)
    requires Distinct(cols)
    ensures Distinct(Columns(cols, rows)) && cols <= Columns(cols, rows)
    ensures forall k :: k in Columns(cols, rows) <==>
              k in cols || exists i :: 0 <= i < |rows| && HasKey(rows[i], k)
    decreases |rows|
  {
    if rows != [] {
      WithKeysSound(cols, rows[0]);
      ColumnsSound(WithKeys(cols, rows[0]), rows[1..]);
      forall k ensures (exists i :: 0 <= i < |rows| && HasKey(rows[i], k)) <==>
                       HasKey(rows[0], k) || exists i :: 0 <= i < |rows[1..]| && HasKey(rows[1..][i], k) {
        if i :| 0 <= i < |rows| && HasKey(rows[i], k) {
          if i > 0 { assert HasKey(rows[1..][i - 1], k); }
        }
        if i :| 0 <= i < |rows[1..]| && HasKey(rows[1..][i], k) {
          assert HasKey(rows[i + 1], k);
        }
      }
    }
  }
}
