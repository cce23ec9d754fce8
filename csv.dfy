/**
 * Comma-separated text as the exports write it: a cell is quoted by doubling every
 * `"` inside it and wrapping it in `"`, cells are joined with `,` and lines with `\n`.
 * `Parse` is an independent reader of such text (quoted and plain cells, no trailing
 * line terminator), used to state what the writers produce as round trips.
 */
module Csv {
  import opened Wrappers
  import opened Strings

  /** `String.prototype.replace(/"/g, '""')`. */
  function Escape(s: string): (r: string)
    ensures |r| >= |s|
    ensures '"' !in s ==> r == s
  {
    if s == [] then "" else (if s[0] == '"' then "\"\"" else [s[0]]) + Escape(s[1..])
  }

  lemma EscapeAppend(a: string, b: string)
    ensures Escape(a + b) == Escape(a) + Escape(b)
  {
    if a == [] {
      assert a + b == b;
    } else {
      assert (a + b)[0] == a[0];
      assert (a + b)[1..] == a[1..] + b;
      EscapeAppend(a[1..], b);
    }
  }

  /** One quoted cell: `"` + cell with its quotes doubled + `"`. */
  function Quote(s: string): string { "\"" + Escape(s) + "\"" }

  function QuoteAll(cells: seq<string>): (r: seq<string>)
    ensures |r| == |cells| && forall i :: 0 <= i < |cells| ==> r[i] == Quote(cells[i])
  {
    seq(|cells|, i requires 0 <= i < |cells| => Quote(cells[i]))
  }

  /** A cell that can be written without quotes: no separator and no quote character. */
  predicate IsPlain(s: string) { forall i :: 0 <= i < |s| ==> s[i] != ',' && s[i] != '\n' && s[i] != '"' }

  // ---------------------------------------------------------------- the reader

  /** Reads the inside of a quoted cell, just after its opening quote: a doubled quote stands
      for one quote, a single quote closes the cell. Returns the cell and what follows it. */
  function ReadQuoted(s: string): (r: Option<(string, string)>)
    ensures r.Some? ==> |r.value.1| < |s|
  {
    if s == [] then None
    else if s[0] == '"' then
      if |s| >= 2 && s[1] == '"' then
        match ReadQuoted(s[2..])
        case None => None
        case Some(p) => Some(("\"" + p.0, p.1))
      else Some(("", s[1..]))
    else
      match ReadQuoted(s[1..])
      case None => None
      case Some(p) => Some(([s[0]] + p.0, p.1))
  }

  /** Reads an unquoted cell up to the next `,` or `\n`. */
  function ReadPlain(s: string): (r: (string, string))
    ensures |r.1| <= |s|
  {
    if s == [] || s[0] == ',' || s[0] == '\n' then ("", s)
    else var p := ReadPlain(s[1..]); ([s[0]] + p.0, p.1)
  }

  function ReadCell(s: string): (r: Option<(string, string)>)
    ensures r.Some? ==> |r.value.1| <= |s|
  {
    if s != [] && s[0] == '"' then ReadQuoted(s[1..]) else Some(ReadPlain(s))
  }

  /** Reads the cells of one line; what is left is empty or starts with `\n`. */
  function ReadLine(s: string): (r: Option<(seq<string>, string)>)
    ensures r.Some? ==> |r.value.1| <= |s|
    decreases |s|
  {
    match ReadCell(s)
    case None => None
    case Some(p) =>
      if p.1 != [] && p.1[0] == ',' then
        match ReadLine(p.1[1..])
        case None => None
        case Some(q) => Some(([p.0] + q.0, q.1))
      else if p.1 == [] || p.1[0] == '\n' then Some(([p.0], p.1))
      else None
  }

  /** Reads a whole text into its lines of cells. */
  function Parse(s: string): Option<seq<seq<string>>>
    decreases |s|
  {
    match ReadLine(s)
    case None => None
    case Some(p) =>
      if p.1 == [] then Some([p.0])
      else
        match Parse(p.1[1..])
        case None => None
        case Some(rest) => Some([p.0] + rest)
  }

  // ---------------------------------------------------------------- round trips

  /** A quoted cell reads back as the cell, whatever follows its closing quote
      (other than a further quote, which would make the closing quote a doubled one). */
  lemma {:induction false} QuotedRoundTrip(cell: string, tail: string)
    requires tail == [] || tail[0] != '"'
    ensures ReadQuoted(Escape(cell) + "\"" + tail) == Some((cell, tail))
  {
    var s := Escape(cell) + "\"" + tail;
    if cell == [] {
      assert s == "\"" + tail;
      assert s[1..] == tail;
    } else {
      QuotedRoundTrip(cell[1..], tail);
      if cell[0] == '"' {
        assert s == "\"\"" + (Escape(cell[1..]) + "\"" + tail);
        assert s[2..] == Escape(cell[1..]) + "\"" + tail;
        assert "\"" + cell[1..] == cell;
      } else {
        assert s == [cell[0]] + (Escape(cell[1..]) + "\"" + tail);
        assert s[1..] == Escape(cell[1..]) + "\"" + tail;
        assert [cell[0]] + cell[1..] == cell;
      }
    }
  }

  lemma {:induction false} PlainRoundTrip(cell: string, tail: string)
    requires IsPlain(cell)
    requires tail == [] || tail[0] == ',' || tail[0] == '\n'
    ensures ReadPlain(cell + tail) == (cell, tail)
  {
    if cell == [] {
      assert cell + tail == tail;
    } else {
      assert (cell + tail)[1..] == cell[1..] + tail;
      PlainRoundTrip(cell[1..], tail);
      assert [cell[0]] + cell[1..] == cell;
    }
  }

  /** A line of plain cells joined with `,` reads back as those cells. */
  lemma {:induction false} PlainLineRoundTrip(cells: seq<string>, tail: string)
    requires |cells| >= 1 && forall i :: 0 <= i < |cells| ==> IsPlain(cells[i])
    requires tail == [] || tail[0] == '\n'
    ensures ReadLine(Join(cells, ",") + tail) == Some((cells, tail))
  {
    if |cells| == 1 {
      var s := cells[0] + tail;
      assert Join(cells, ",") + tail == s;
      if cells[0] == [] {
        assert s == tail;
      } else {
        assert s[0] == cells[0][0] != '"';
      }
      PlainRoundTrip(cells[0], tail);
      assert ReadCell(s) == Some((cells[0], tail));
      assert cells == [cells[0]];
    } else {
      var rest := Join(cells[1..], ",") + tail;
      assert Join(cells, ",") + tail == cells[0] + ("," + rest);
      if cells[0] != [] {
        assert cells[0][0] != '"';
      }
      var s := cells[0] + ("," + rest);
      if cells[0] == [] {
        assert s == "," + rest;
      } else {
        assert s[0] == cells[0][0] != '"';
      }
      PlainRoundTrip(cells[0], "," + rest);
      assert ReadCell(s) == Some((cells[0], "," + rest));
      assert ("," + rest)[1..] == rest;
      PlainLineRoundTrip(cells[1..], tail);
      assert [cells[0]] + cells[1..] == cells;
    }
  }

  /** A line of quoted cells joined with `,` reads back as the cells. */
  lemma {:induction false} QuotedLineRoundTrip(cells: seq<string>, tail: string)
    requires |cells| >= 1
    requires tail == [] || tail[0] == '\n'
    ensures ReadLine(Join(QuoteAll(cells), ",") + tail) == Some((cells, tail))
  {
    var q := QuoteAll(cells);
    if |cells| == 1 {
      var s := Join(q, ",") + tail;
      assert s == "\"" + (Escape(cells[0]) + "\"" + tail);
      assert s[1..] == Escape(cells[0]) + "\"" + tail;
      QuotedRoundTrip(cells[0], tail);
      assert ReadCell(s) == Some((cells[0], tail));
      assert cells == [cells[0]];
    } else {
      var rest := Join(q[1..], ",") + tail;
      var s := Join(q, ",") + tail;
      assert s == "\"" + (Escape(cells[0]) + "\"" + ("," + rest));
      assert s[1..] == Escape(cells[0]) + "\"" + ("," + rest);
      QuotedRoundTrip(cells[0], "," + rest);
      assert ReadCell(s) == Some((cells[0], "," + rest));
      assert ("," + rest)[1..] == rest;
      assert q[1..] == QuoteAll(cells[1..]);
      QuotedLineRoundTrip(cells[1..], tail);
      assert [cells[0]] + cells[1..] == cells;
    }
  }

  /** The text of quoted lines: each line's cells quoted and joined with `,`, lines joined with `\n`. */
  function QuotedLines(rows: seq<seq<string>>): seq<string>
    ensures |QuotedLines(rows)| == |rows|
  {
    seq(|rows|, i requires 0 <= i < |rows| => Join(QuoteAll(rows[i]), ","))
  }

  /** Text whose last line is a non-empty row of quoted cells ends with a closing quote. */
  lemma EndsWithClosingQuote(header: string, rows: seq<seq<string>>)
    requires |rows| >= 1 && |rows[|rows| - 1]| >= 1
    ensures var t := Join([header] + QuotedLines(rows), "\n"); |t| >= 1 && t[|t| - 1] == '"'
  {
    var all := [header] + QuotedLines(rows);
    var lastRow := QuoteAll(rows[|rows| - 1]);
    assert all[|all| - 1] == Join(lastRow, ",");
    JoinEndsWithLast(lastRow, ",");
    JoinEndsWithLast(all, "\n");
    var lastCell := lastRow[|lastRow| - 1];
    assert lastCell[|lastCell| - 1] == '"';
  }

  lemma {:induction false} QuotedLinesRoundTrip(rows: seq<seq<string>>)
    requires |rows| >= 1 && forall i :: 0 <= i < |rows| ==> |rows[i]| >= 1
    ensures Parse(Join(QuotedLines(rows), "\n")) == Some(rows)
  {
    var lines := QuotedLines(rows);
    if |rows| == 1 {
      QuotedLineRoundTrip(rows[0], []);
      assert Join(lines, "\n") == lines[0] + [];
      assert rows == [rows[0]];
    } else {
      var rest := Join(lines[1..], "\n");
      assert Join(lines, "\n") == lines[0] + ("\n" + rest);
      QuotedLineRoundTrip(rows[0], "\n" + rest);
      assert ReadLine(Join(lines, "\n")) == Some((rows[0], "\n" + rest));
      assert ("\n" + rest)[1..] == rest;
      assert lines[1..] == QuotedLines(rows[1..]);
      QuotedLinesRoundTrip(rows[1..]);
      assert [rows[0]] + rows[1..] == rows;
    }
  }

  lemma JoinCons(first: string, rest: seq<string>, sep: string)
    requires |rest| >= 1
    ensures Join([first] + rest, sep) == first + sep + Join(rest, sep)
  {
    assert ([first] + rest)[1..] == rest;
  }

  lemma ParseCons(text: string, line: seq<string>, rest: string, lines: seq<seq<string>>)
    requires ReadLine(text) == Some((line, "\n" + rest))
    requires Parse(rest) == Some(lines)
    ensures Parse(text) == Some([line] + lines)
  {
    assert ("\n" + rest)[1..] == rest;
  }

  /** A header line of plain names followed by quoted data lines reads back as the header
      and the data, line for line and cell for cell. */
  lemma HeaderAndRowsRoundTrip(header: seq<string>, rows: seq<seq<string>>)
    requires |header| >= 1 && forall i :: 0 <= i < |header| ==> IsPlain(header[i])
    requires forall i :: 0 <= i < |rows| ==> |rows[i]| >= 1
    ensures Parse(Join([Join(header, ",")] + QuotedLines(rows), "\n")) == Some([header] + rows)
  {
    var h := Join(header, ",");
    var lines := QuotedLines(rows);
    var text := Join([h] + lines, "\n");
    if |rows| == 0 {
      assert [h] + lines == [h];
      assert text == h + [];
      PlainLineRoundTrip(header, []);
      assert [header] + rows == [header];
    } else {
      var rest := Join(lines, "\n");
      assert text == h + ("\n" + rest) by {
        JoinCons(h, lines, "\n");
      }
      assert ReadLine(h + ("\n" + rest)) == Some((header, "\n" + rest)) by {
        PlainLineRoundTrip(header, "\n" + rest);
      }
      assert Parse(rest) == Some(rows) by {
        QuotedLinesRoundTrip(rows);
      }
      ParseCons(text, header, rest, rows);
    }
  }
}
