/** The CSV export: a fixed header row and one row per stored record,
    every cell wrapped in double quotes, cells joined by `,` and rows by
    `\n`; only the note has its embedded quotes doubled. A small reader for
    that format is defined alongside, so that the export can be shown to
    give its fields back. */
module Csv {
  import opened Records

  const Header: seq<string> := ["Date/Time", "Name", "Student ID", "Note"]

  /** `s.replace(/"/g, '""')`. */
  function Escape(s: string): string
  {
    if s == [] then []
    else (if s[0] == '"' then "\"\"" else [s[0]]) + Escape(s[1..])
  }

  /** Reads an escaped cell body back, turning every `""` into `"`. */
  function Collapse(s: string): string
  {
    if |s| >= 2 && s[0] == '"' && s[1] == '"' then "\"" + Collapse(s[2..])
    else if s == [] then []
    else [s[0]] + Collapse(s[1..])
  }

  /** The note cell: `r.note?.replace(/"/g, '""') || ''`. An absent note
      gives the empty cell; so does an empty one, whose escape is empty. */
  function NoteCell(note: Option<string>): string
  {
    match note
    case None => ""
    case Some(s) => Escape(s)
  }

  /** The note as the user typed it, or empty when there is none. */
  function NoteText(note: Option<string>): string
  {
    match note
    case None => ""
    case Some(s) => s
  }

  /** The four cells of a record's row before quoting. `formatDate` stands
      for the locale-dependent date formatting of the host. */
  function Cells(r: Record, formatDate: string -> string): seq<string>
  {
    [formatDate(r.date), r.name, r.studentId, NoteCell(r.note)]
  }

  /** The fields a reader of the file should get back for a record. */
  function DisplayFields(r: Record, formatDate: string -> string): seq<string>
  {
    [formatDate(r.date), r.name, r.studentId, NoteText(r.note)]
  }

  function Quote(cell: string): string
  {
    "\"" + cell + "\""
  }

  /** `row.map(cell => '"' + cell + '"').join(',')`. */
  function Row(cells: seq<string>): string
  {
    if cells == [] then []
    else if |cells| == 1 then Quote(cells[0])
    else Quote(cells[0]) + "," + Row(cells[1..])
  }

  /** `lines.join('\n')`. */
  function JoinLines(lines: seq<string>): string
  {
    if lines == [] then []
    else if |lines| == 1 then lines[0]
    else lines[0] + "\n" + JoinLines(lines[1..])
  }

  /** The header line followed by one line per record, in stored order. */
  function Lines(rs: seq<Record>, formatDate: string -> string): (ls: seq<string>)
    ensures |ls| == |rs| + 1
  {
    [Row(Header)] + seq(|rs|, i requires 0 <= i < |rs| => Row(Cells(rs[i], formatDate)))
  }

  /** The text `exportCSV` puts in the downloaded file. */
  function Export(rs: seq<Record>, formatDate: string -> string): string
  {
    JoinLines(Lines(rs, formatDate))
  }

  /** The download's file name, `attendance-YYYY-MM-DD.csv`. */
  function FileName(nowIso: string): string
  {
    "attendance-" + Day(nowIso) + ".csv"
  }

  /** The file name carries the calendar day and nothing else of the time:
      two exports get the same name exactly when they fall on the same day,
      and the day can be read back from between the prefix and `.csv`. */
  lemma FileNameNamesTheDay(a: string, b: string)
    ensures var n := FileName(a);
      |n| >= 15 && n[11..|n| - 4] == Day(a)
    ensures FileName(a) == FileName(b) <==> Day(a) == Day(b)
  {
    var n, m := FileName(a), FileName(b);
    assert n[11..|n| - 4] == Day(a);
    assert m[11..|m| - 4] == Day(b);
  }

  // ---- reading the file back ----

  /** Splits text at every `\n`. */
  function SplitLines(s: string): (ls: seq<string>)
    ensures |ls| >= 1
  {
    if s == [] then [[]]
    else if s[0] == '\n' then [[]] + SplitLines(s[1..])
    else var rest := SplitLines(s[1..]); [[s[0]] + rest[0]] + rest[1..]
  }

  /** Reads one quoted cell, given the text after its opening quote:
      `""` stands for `"`, a lone `"` ends the cell. Gives the cell and the
      text after its closing quote, or None when the cell is unterminated. */
  function ParseCell(s: string): (res: Option<(string, string)>)
    ensures res.Some? ==> |res.value.1| < |s|
  {
    if s == [] then None
    else if s[0] == '"' then
      if |s| >= 2 && s[1] == '"' then
        match ParseCell(s[2..])
        case None => None
        case Some((cell, rest)) => Some(("\"" + cell, rest))
      else Some(([], s[1..]))
    else
      match ParseCell(s[1..])
      case None => None
      case Some((cell, rest)) => Some(([s[0]] + cell, rest))
  }

  /** Reads a line of quoted cells separated by `,`. */
  function ParseRow(s: string): Option<seq<string>>
    decreases |s|
  {
    if s == [] || s[0] != '"' then None
    else
      match ParseCell(s[1..])
      case None => None
      case Some((cell, rest)) =>
        if rest == [] then Some([cell])
        else if rest[0] != ',' then None
        else
          match ParseRow(rest[1..])
          case None => None
          case Some(cells) => Some([cell] + cells)
  }

  // ---- properties ----

  /** Collapsing the doubled quotes of an escaped note gives the note back. */
  lemma {:induction false} CollapseEscape(s: string)
    ensures Collapse(Escape(s)) == s
  {
    if s != [] {
      CollapseEscape(s[1..]);
      if s[0] == '"' {
        assert Escape(s) == "\"\"" + Escape(s[1..]);
        assert ("\"\"" + Escape(s[1..]))[2..] == Escape(s[1..]);
      } else {
        assert Escape(s) == [s[0]] + Escape(s[1..]);
        assert ([s[0]] + Escape(s[1..]))[1..] == Escape(s[1..]);
      }
      assert s == [s[0]] + s[1..];
    }
  }

  /** The note cell reads back as the note; it is empty for an absent or
      empty note. */
  lemma NoteCellReadsBack(note: Option<string>)
    ensures Collapse(NoteCell(note)) == NoteText(note)
    ensures note == None || note == Some("") ==> NoteCell(note) == ""
  {
    if note.Some? {
      CollapseEscape(note.value);
    }
  }

  /** Escaping leaves quote-free text unchanged. */
  lemma {:induction false} EscapeQuoteFree(s: string)
    requires '"' !in s
    ensures Escape(s) == s
  {
    if s != [] {
      assert s[0] != '"';
      assert '"' !in s[1..];
      EscapeQuoteFree(s[1..]);
      assert s == [s[0]] + s[1..];
    }
  }

  /** Escaping adds no line break. */
  lemma {:induction false} EscapeNoNewline(s: string)
    requires '\n' !in s
    ensures '\n' !in Escape(s)
  {
    if s != [] {
      assert '\n' !in s[1..];
      EscapeNoNewline(s[1..]);
    }
  }

  /** A row of cells without line breaks is a single line. */
  lemma {:induction false} RowNoNewline(cells: seq<string>)
    requires forall i :: 0 <= i < |cells| ==> '\n' !in cells[i]
    ensures '\n' !in Row(cells)
  {
    if |cells| > 1 {
      RowNoNewline(cells[1..]);
    }
  }

  /** Text without line breaks splits into itself alone. */
  lemma {:induction false} SplitSingle(s: string)
    requires '\n' !in s
    ensures SplitLines(s) == [s]
  {
    if s != [] {
      assert '\n' !in s[1..];
      SplitSingle(s[1..]);
      assert s == [s[0]] + s[1..];
    }
  }

  /** Splitting after a line break-free first line. */
  lemma {:induction false} SplitAfterLine(a: string, b: string)
    requires '\n' !in a
    ensures SplitLines(a + "\n" + b) == [a] + SplitLines(b)
  {
    if a == [] {
      assert a + "\n" + b == "\n" + b;
      assert ("\n" + b)[1..] == b;
    } else {
      assert '\n' !in a[1..];
      SplitAfterLine(a[1..], b);
      assert (a + "\n" + b)[1..] == a[1..] + "\n" + b;
      assert [a[0]] + a[1..] == a;
    }
  }

  /** Joining lines that hold no line break and splitting again gives the
      same lines. */
  lemma {:induction false} SplitJoin(lines: seq<string>)
    requires |lines| >= 1
    requires forall i :: 0 <= i < |lines| ==> '\n' !in lines[i]
    ensures SplitLines(JoinLines(lines)) == lines
  {
    if |lines| == 1 {
      SplitSingle(lines[0]);
    } else {
      SplitJoin(lines[1..]);
      SplitAfterLine(lines[0], JoinLines(lines[1..]));
      assert lines == [lines[0]] + lines[1..];
    }
  }

  /** A cell reader reads an escaped cell and its closing quote, leaving the
      text after it, when that text does not start with a quote. */
  lemma {:induction false} ParseEscapedCell(x: string, rest: string)
    requires rest == [] || rest[0] != '"'
    ensures ParseCell(Escape(x) + "\"" + rest) == Some((x, rest))
  {
    var s := Escape(x) + "\"" + rest;
    if x == [] {
      assert s == "\"" + rest;
      assert s[1..] == rest;
    } else {
      ParseEscapedCell(x[1..], rest);
      var t := Escape(x[1..]) + "\"" + rest;
      if x[0] == '"' {
        assert s == "\"\"" + t;
        assert s[2..] == t;
        assert "\"" + x[1..] == x;
      } else {
        assert s == [x[0]] + t;
        assert s[1..] == t;
        assert [x[0]] + x[1..] == x;
      }
    }
  }

  function EscapeAll(cells: seq<string>): (r: seq<string>)
    ensures |r| == |cells|
  {
    seq(|cells|, i requires 0 <= i < |cells| => Escape(cells[i]))
  }

  /** Reading back a row whose cells were all escaped gives the cells. */
  lemma {:induction false} ParseEscapedRow(cells: seq<string>)
    requires |cells| >= 1
    ensures ParseRow(Row(EscapeAll(cells))) == Some(cells)
  {
    var e := EscapeAll(cells);
    assert e[0] == Escape(cells[0]);
    if |cells| == 1 {
      ParseLastCell(cells[0]);
      assert [cells[0]] == cells;
    } else {
      assert EscapeAll(cells[1..]) == e[1..];
      ParseEscapedRow(cells[1..]);
      ParseCellThenComma(cells[0], Row(e[1..]));
      assert [cells[0]] + cells[1..] == cells;
    }
  }

  /** The last cell of a row reads back on its own. */
  lemma ParseLastCell(c: string)
    ensures ParseRow(Quote(Escape(c))) == Some([c])
  {
    var s := Quote(Escape(c));
    ParseEscapedCell(c, []);
    assert s[1..] == Escape(c) + "\"" + [];
  }

  /** A cell followed by `,` reads back, then reading goes on after the comma. */
  lemma ParseCellThenComma(c: string, tail: string)
    ensures ParseRow(Quote(Escape(c)) + "," + tail) ==
      match ParseRow(tail)
      case None => None
      case Some(cells) => Some([c] + cells)
  {
    var s := Quote(Escape(c)) + "," + tail;
    ParseEscapedCell(c, "," + tail);
    assert s[1..] == Escape(c) + "\"" + ("," + tail);
    assert ("," + tail)[1..] == tail;
  }

  /** No field of the record holds a line break. */
  ghost predicate SingleLine(r: Record, formatDate: string -> string)
  {
    forall k :: 0 <= k < 4 ==> '\n' !in DisplayFields(r, formatDate)[k]
  }

  /** The date, name and student-id cells, which are written unescaped,
      hold no quote. */
  ghost predicate QuoteFree(r: Record, formatDate: string -> string)
  {
    forall k :: 0 <= k < 3 ==> '"' !in DisplayFields(r, formatDate)[k]
  }

  /** A record whose fields read back unchanged from the file: no field
      holds a line break and the unescaped cells hold no quote. */
  ghost predicate Readable(r: Record, formatDate: string -> string)
  {
    SingleLine(r, formatDate) && QuoteFree(r, formatDate)
  }

  /** The row of a record without line breaks is a single line. */
  lemma RecordRowNoNewline(r: Record, formatDate: string -> string)
    requires SingleLine(r, formatDate)
    ensures '\n' !in Row(Cells(r, formatDate))
  {
    var c := Cells(r, formatDate);
    var d := DisplayFields(r, formatDate);
    assert c[0] == d[0] && c[1] == d[1] && c[2] == d[2];
    assert '\n' !in d[3];
    match r.note {
      case None =>
      case Some(n) => EscapeNoNewline(n);
    }
    assert '\n' !in c[3];
    RowNoNewline(c);
  }

  /** When no field holds a line break, the file has one line per record
      after the header, each the quoted row of that record in stored order. */
  lemma ExportLines(rs: seq<Record>, formatDate: string -> string)
    requires forall i :: 0 <= i < |rs| ==> SingleLine(rs[i], formatDate)
    ensures SplitLines(Export(rs, formatDate)) == Lines(rs, formatDate)
    ensures |SplitLines(Export(rs, formatDate))| == |rs| + 1
  {
    var ls := Lines(rs, formatDate);
    RowNoNewline(Header);
    forall i | 0 <= i < |rs|
      ensures '\n' !in Row(Cells(rs[i], formatDate))
    {
      RecordRowNoNewline(rs[i], formatDate);
    }
    assert forall i :: 0 <= i < |ls| ==> '\n' !in ls[i];
    SplitJoin(ls);
  }

  /** The header line reads back as the four column titles. */
  lemma HeaderReadsBack()
    ensures ParseRow(Row(Header)) == Some(Header)
  {
    forall k | 0 <= k < 4 ensures Escape(Header[k]) == Header[k] {
      EscapeQuoteFree(Header[k]);
    }
    assert EscapeAll(Header) == Header;
    ParseEscapedRow(Header);
  }

  /** A record's line reads back as its date, name, student id and note. */
  lemma RowReadsBack(r: Record, formatDate: string -> string)
    requires QuoteFree(r, formatDate)
    ensures ParseRow(Row(Cells(r, formatDate))) == Some(DisplayFields(r, formatDate))
  {
    var d := DisplayFields(r, formatDate);
    forall k | 0 <= k < 3 ensures Escape(d[k]) == d[k] {
      EscapeQuoteFree(d[k]);
    }
    assert EscapeAll(d) == Cells(r, formatDate);
    ParseEscapedRow(d);
  }

  /** Reading the exported file back gives the header and, line by line,
      the date, name, student id and note of every stored record. */
  lemma ExportReadsBack(rs: seq<Record>, formatDate: string -> string)
    requires forall i :: 0 <= i < |rs| ==> Readable(rs[i], formatDate)
    ensures var lines := SplitLines(Export(rs, formatDate));
      && |lines| == |rs| + 1
      && ParseRow(lines[0]) == Some(Header)
      && forall i :: 0 <= i < |rs| ==> ParseRow(lines[i + 1]) == Some(DisplayFields(rs[i], formatDate))
  {
    ExportLines(rs, formatDate);
    HeaderReadsBack();
    forall i | 0 <= i < |rs|
      ensures ParseRow(Row(Cells(rs[i], formatDate))) == Some(DisplayFields(rs[i], formatDate))
    {
      RowReadsBack(rs[i], formatDate);
    }
  }
}
