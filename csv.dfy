/** exportToExcel's text: a fixed header line, then one comma-joined line per
    record, lines joined by '\n'. Fields go in verbatim: nothing is quoted or
    escaped, so this is not the quoting scheme of section 2 of RFC 4180. */
module Csv {
  import opened Decimal
  import opened Form
  import opened Ledger
  import Calendar

  const Header: seq<string> := [
    "Semana", "Agricultor", "Lote", "Color de la Cinta", "Prematuro",
    "Presente", "Novedades", "Cosecha", "Embolse (calculado)", "Faltante (calculado)"
  ]

  /** No header cell holds a comma or a line break. */
  lemma {:induction false} HeaderCellsPlain()
    ensures FreeOf(Header, ',') && FreeOf(Header, '\n')
  {
    HeaderHasNo(',');
    HeaderHasNo('\n');
  }

  lemma {:induction false} HeaderHasNo(c: char)
    requires c == ',' || c == '\n'
    ensures FreeOf(Header, c)
  {
    forall i | 0 <= i < |Header|
      ensures c !in Header[i]
    {
      var cell := Header[i];
      forall j | 0 <= j < |cell|
        ensures cell[j] != c
      {
        assert cell[j] == ' ' || cell[j] == '(' || cell[j] == ')' || 'A' <= cell[j] <= 'z';
      }
    }
  }

  /** `String(r.week)`: a computed week is printed in decimal, an entered one as typed. */
  function WeekText(w: WeekValue): string {
    match w
    case Computed(n) => IntToString(n)
    case Entered(t) => t
  }

  /** The ten cells of a record's line, in header order. `show` renders a
      JavaScript number as text. */
  function RecordFields(r: Record, show: real -> string): (f: seq<string>)
    ensures |f| == |Header|
  {
    [WeekText(r.week), r.agricultor, r.lote, r.color, r.prematuro,
     r.presente, r.novedades, r.cosecha, show(r.embolse), show(r.faltante)]
  }

  /** `parts.join([sep])`. */
  function Join(parts: seq<string>, sep: char): string {
    if |parts| == 0 then ""
    else if |parts| == 1 then parts[0]
    else parts[0] + [sep] + Join(parts[1..], sep)
  }

  /** Joined text opens with the first part, a separator follows it when more
      parts come, and the text closes with the last part. */
  lemma {:induction false} JoinEnds(parts: seq<string>, sep: char)
    requires |parts| >= 1
    ensures var r := Join(parts, sep);
      && |parts[0]| <= |r| && r[..|parts[0]|] == parts[0]
      && (|parts| >= 2 ==> |parts[0]| < |r| && r[|parts[0]|] == sep)
      && |parts[|parts| - 1]| <= |r| && r[|r| - |parts[|parts| - 1]|..] == parts[|parts| - 1]
  {
    if |parts| >= 2 {
      JoinEnds(parts[1..], sep);
      assert parts[1..][|parts[1..]| - 1] == parts[|parts| - 1];
    }
  }

  /** The pieces of s between occurrences of sep (`s.split(sep)`): the reading
      a consumer of the file applies. */
  function Split(s: string, sep: char): (pieces: seq<string>)
    ensures |pieces| >= 1
  {
    if s == [] then [""]
    else
      var rest := Split(s[1..], sep);
      if s[0] == sep then [""] + rest
      else [[s[0]] + rest[0]] + rest[1..]
  }

  /** No part holds the separator. */
  predicate FreeOf(parts: seq<string>, sep: char) {
    forall i :: 0 <= i < |parts| ==> sep !in parts[i]
  }

  /** Splitting text that starts with a separator-free chunk a. */
  lemma {:induction false} SplitAfterChunk(a: string, tail: string, sep: char)
    requires sep !in a
    ensures Split(a + tail, sep) == [a + Split(tail, sep)[0]] + Split(tail, sep)[1..]
  {
    if a != [] {
      assert (a + tail)[1..] == a[1..] + tail;
      SplitAfterChunk(a[1..], tail, sep);
      assert [a[0]] + (a[1..] + Split(tail, sep)[0]) == a + Split(tail, sep)[0];
    } else {
      assert a + tail == tail;
      assert a + Split(tail, sep)[0] == Split(tail, sep)[0];
      assert Split(tail, sep) == [Split(tail, sep)[0]] + Split(tail, sep)[1..];
    }
  }

  /** Joining separator-free parts and splitting again gives the parts back. */
  lemma {:induction false} SplitJoin(parts: seq<string>, sep: char)
    requires |parts| >= 1
    requires FreeOf(parts, sep)
    ensures Split(Join(parts, sep), sep) == parts
  {
    assert sep !in parts[0];
    if |parts| == 1 {
      SplitAfterChunk(parts[0], "", sep);
      assert parts[0] + "" == parts[0];
    } else {
      var rest := Join(parts[1..], sep);
      SplitJoin(parts[1..], sep);
      assert parts[0] + [sep] + rest == parts[0] + ([sep] + rest);
      SplitAfterChunk(parts[0], [sep] + rest, sep);
      assert ([sep] + rest)[1..] == rest;
      assert Split([sep] + rest, sep) == [""] + parts[1..];
      assert parts[0] + "" == parts[0];
    }
  }

  /** A separator-free part joined with others contributes no separator. */
  lemma {:induction false} JoinFreeOf(parts: seq<string>, sep: char, c: char)
    requires c != sep
    requires FreeOf(parts, c)
    ensures c !in Join(parts, sep)
  {
    if |parts| > 1 {
      JoinFreeOf(parts[1..], sep, c);
      assert c !in parts[0];
    }
  }

  /** `records.map(r => [...].join(','))`, in ledger order. */
  function Rows(records: seq<Record>, show: real -> string): (rows: seq<string>)
    ensures |rows| == |records|
    ensures forall i :: 0 <= i < |records| ==> rows[i] == Join(RecordFields(records[i], show), ',')
  {
    if records == [] then []
    else [Join(RecordFields(records[0], show), ',')] + Rows(records[1..], show)
  }

  /** The whole exported text: it opens with the header line, which is all
      of it when there is no record, and a line break follows the header
      line otherwise. */
  function ExportCsv(records: seq<Record>, show: real -> string): (text: string)
    ensures var h := Join(Header, ','); |h| <= |text| && text[..|h|] == h
    ensures records == [] <==> text == Join(Header, ',')
    ensures records != [] ==> |Join(Header, ',')| < |text| && text[|Join(Header, ',')|] == '\n'
  {
    var lines := [Join(Header, ',')] + Rows(records, show);
    JoinEnds(lines, '\n');
    Join(lines, '\n')
  }

  /** Every cell of every record is free of character c. */
  predicate CellsFreeOf(records: seq<Record>, show: real -> string, c: char) {
    forall i :: 0 <= i < |records| ==> FreeOf(RecordFields(records[i], show), c)
  }

  /** With no line break inside a cell, the text has one header line and then
      exactly one line per record, in ledger order. */
  lemma {:induction false} ExportLines(records: seq<Record>, show: real -> string)
    requires CellsFreeOf(records, show, '\n')
    ensures Split(ExportCsv(records, show), '\n') == [Join(Header, ',')] + Rows(records, show)
    ensures |Split(ExportCsv(records, show), '\n')| == |records| + 1
  {
    var lines := [Join(Header, ',')] + Rows(records, show);
    assert ExportCsv(records, show) == Join(lines, '\n');
    HeaderCellsPlain();
    JoinFreeOf(Header, ',', '\n');
    RowsFreeOfLineBreaks(records, show);
    FreeOfCons(Join(Header, ','), Rows(records, show), '\n');
    SplitJoin(lines, '\n');
  }

  lemma {:induction false} FreeOfCons(first: string, rest: seq<string>, sep: char)
    requires sep !in first && FreeOf(rest, sep)
    ensures FreeOf([first] + rest, sep)
  {
    forall i | 0 <= i < |rest| + 1 ensures sep !in ([first] + rest)[i] {
      if i > 0 {
        assert ([first] + rest)[i] == rest[i - 1];
      }
    }
  }

  lemma {:induction false} RowsFreeOfLineBreaks(records: seq<Record>, show: real -> string)
    requires CellsFreeOf(records, show, '\n')
    ensures FreeOf(Rows(records, show), '\n')
  {
    var rows := Rows(records, show);
    forall i | 0 <= i < |records| ensures '\n' !in rows[i] {
      JoinFreeOf(RecordFields(records[i], show), ',', '\n');
    }
  }

  /** With neither a comma nor a line break inside a cell, line i + 1 of the
      text splits back into exactly the ten cells of record i. */
  lemma {:induction false} ExportRowSplitsBack(records: seq<Record>, show: real -> string, i: int)
    requires CellsFreeOf(records, show, '\n') && CellsFreeOf(records, show, ',')
    requires 0 <= i < |records|
    ensures |Split(ExportCsv(records, show), '\n')| == |records| + 1
    ensures Split(Split(ExportCsv(records, show), '\n')[i + 1], ',') == RecordFields(records[i], show)
  {
    ExportLines(records, show);
    SplitJoin(RecordFields(records[i], show), ',');
  }

  /** Renders an integral JavaScript number the way `String` does. */
  function ShowWhole(x: real): string {
    IntToString(x.Floor)
  }

  /** The worked example: grower A7, week computed on 2024-03-15, lot 2, blue
      tape, presente 10, novedades 2, cosecha 9. */
  lemma {:induction false} ExportExampleRow(id: int, today: Calendar.Date, d: Draft)
    requires today == Calendar.Date(2024, 3, 15)
    requires d == Draft("Lote 2", "Azul", "", "10", "2", "9")
    ensures Calendar.ValidDate(today) && WellFormed(d)
    ensures Join(RecordFields(NewRecord(id, Computed(Calendar.WeekNumber(today)), "A7", d), ShowWhole), ',')
         == "11,A7,Lote 2,Azul,,10,2,9,12,3"
  {
    Calendar.WeekNumberOfMarch15th2024(today);
    DerivedFieldsExample();
    ExampleCells(NewRecord(id, Computed(Calendar.WeekNumber(today)), "A7", d));
    ExampleLine(["11", "A7", "Lote 2", "Azul", "", "10", "2", "9", "12", "3"]);
  }

  /** The cells of the worked example's record. */
  lemma {:induction false} ExampleCells(r: Record)
    requires r.week == Computed(11) && r.agricultor == "A7"
    requires DraftOf(r) == Draft("Lote 2", "Azul", "", "10", "2", "9")
    requires r.embolse == 12.0 && r.faltante == 3.0
    ensures RecordFields(r, ShowWhole) == ["11", "A7", "Lote 2", "Azul", "", "10", "2", "9", "12", "3"]
  {
    TwoDigitString(r.week.number);
    TwoDigitString(r.embolse.Floor);
    OneDigitString(r.faltante.Floor);
    assert DigitChar(1) == '1' && DigitChar(2) == '2' && DigitChar(3) == '3';
  }

  /** The worked example's ten cells, joined by commas. */
  lemma {:induction false} ExampleLine(cells: seq<string>)
    requires cells == ["11", "A7", "Lote 2", "Azul", "", "10", "2", "9", "12", "3"]
    ensures Join(cells, ',') == "11,A7,Lote 2,Azul,,10,2,9,12,3"
  {
    JoinTen(cells, ',');
  }

  /** Ten cells joined: the first five and the last five around one separator. */
  lemma {:induction false} JoinTen(c: seq<string>, sep: char)
    requires |c| == 10
    ensures Join(c, sep) == c[0] + [sep] + c[1] + [sep] + c[2] + [sep] + c[3] + [sep] + c[4] + [sep]
                          + c[5] + [sep] + c[6] + [sep] + c[7] + [sep] + c[8] + [sep] + c[9]
  {
    assert c == c[..5] + c[5..];
    JoinConcat(c[..5], c[5..], sep);
    JoinFive(c[..5], sep);
    JoinFive(c[5..], sep);
  }

  /** Five cells joined: each cell in order, one separator between neighbours. */
  lemma {:induction false} JoinFive(c: seq<string>, sep: char)
    requires |c| == 5
    ensures Join(c, sep) == c[0] + [sep] + c[1] + [sep] + c[2] + [sep] + c[3] + [sep] + c[4]
  {
    assert Join(c[3..], sep) == c[3] + [sep] + c[4];
    assert Join(c[2..], sep) == c[2] + [sep] + Join(c[3..], sep);
    assert Join(c[1..], sep) == c[1] + [sep] + Join(c[2..], sep);
  }

  lemma {:induction false} JoinCons(a: string, rest: seq<string>, sep: char)
    requires |rest| >= 1
    ensures Join([a] + rest, sep) == a + [sep] + Join(rest, sep)
  {
    assert ([a] + rest)[1..] == rest;
  }

  /** Joining two non-empty lists of cells is joining each and putting the
      separator between them. */
  lemma {:induction false} JoinConcat(a: seq<string>, b: seq<string>, sep: char)
    requires |a| >= 1 && |b| >= 1
    ensures Join(a + b, sep) == Join(a, sep) + [sep] + Join(b, sep)
  {
    if |a| == 1 {
      assert a + b == [a[0]] + b;
      JoinCons(a[0], b, sep);
    } else {
      assert (a + b)[1..] == a[1..] + b;
      JoinConcat(a[1..], b, sep);
    }
  }

  /** A cell a + sep + b joins to the same text as the two cells a and b. */
  lemma {:induction false} JoinCellWithSeparator(pre: seq<string>, a: string, b: string, post: seq<string>, sep: char)
    ensures Join(pre + [a + [sep] + b] + post, sep) == Join(pre + [a, b] + post, sep)
  {
    if pre == [] {
      assert [a, b] + post == [a] + ([b] + post);
      if post != [] {
        assert ([b] + post)[1..] == post;
        assert ([a + [sep] + b] + post)[1..] == post;
      }
    } else {
      assert (pre + [a + [sep] + b] + post)[1..] == pre[1..] + [a + [sep] + b] + post;
      assert (pre + [a, b] + post)[1..] == pre[1..] + [a, b] + post;
      JoinCellWithSeparator(pre[1..], a, b, post, sep);
    }
  }

  /** A comma inside the lot cell, say "Lote 2, Norte", shifts the columns:
      the line reads back as eleven cells, not ten. */
  lemma {:induction false} CommaInCellBreaksColumns(r: Record, show: real -> string, a: string, b: string)
    requires r.lote == a + [','] + b && ',' !in a && ',' !in b
    requires FreeOf(RecordFields(r, show)[..2] + RecordFields(r, show)[3..], ',')
    ensures |Split(Join(RecordFields(r, show), ','), ',')| == |Header| + 1
  {
    var f := RecordFields(r, show);
    var pre, post := f[..2], f[3..];
    assert f == pre + [a + [','] + b] + post;
    JoinCellWithSeparator(pre, a, b, post, ',');
    var parts := pre + [a, b] + post;
    assert FreeOf(parts, ',') by {
      forall i | 0 <= i < |parts| ensures ',' !in parts[i] {
        if i < 2 {
          assert parts[i] == (pre + post)[i];
        } else if i > 3 {
          assert parts[i] == (pre + post)[i - 2];
        }
      }
    }
    SplitJoin(parts, ',');
  }
}
