/** The review page's CSV text: every cell quoted with inner quotes
    doubled, cells joined by `,` and rows by `\n`; and a decoder for the
    quoted-field grammar of section 2 of RFC 4180 (rules 5 to 7), reading
    `\n` as the record separator the exporter writes. */
module Csv {
  import opened Text
  import opened Values

  const Quote: char := '"'

  /** `cell.replace(/"/g, '""')`. */
  function DoubleQuotes(cell: string): (r: string)
    ensures |r| >= |cell|
    decreases |cell|
  {
    if |cell| == 0 then ""
    else if cell[0] == Quote then [Quote, Quote] + DoubleQuotes(cell[1..])
    else [cell[0]] + DoubleQuotes(cell[1..])
  }

  /** One encoded cell: `"` + the cell with its quotes doubled + `"`. */
  function EscapeCell(cell: string): (r: string)
    ensures |r| >= 2 && r[0] == Quote && r[|r| - 1] == Quote
  {
    [Quote] + DoubleQuotes(cell) + [Quote]
  }

  function EscapeAll(cells: seq<string>): (r: seq<string>)
    ensures |r| == |cells|
    ensures forall i :: 0 <= i < |cells| ==> r[i] == EscapeCell(cells[i])
  {
    seq(|cells|, i requires 0 <= i < |cells| => EscapeCell(cells[i]))
  }

  function EncodeRow(cells: seq<string>): string {
    Join(",", EscapeAll(cells))
  }

  function EncodeRows(rows: seq<seq<string>>): (r: seq<string>)
    ensures |r| == |rows|
    ensures forall i :: 0 <= i < |rows| ==> r[i] == EncodeRow(rows[i])
  {
    seq(|rows|, i requires 0 <= i < |rows| => EncodeRow(rows[i]))
  }

  /** `rows.map(row => row.map(escape).join(",")).join("\n")`. */
  function Encode(rows: seq<seq<string>>): string {
    Join("\n", EncodeRows(rows))
  }

  // ---------------------------------------------------------------------
  // Decoder

  /** The inside of a quoted field, after its opening quote: `""` stands
      for one quote and a lone `"` closes the field. Returns the field and
      the text after the closing quote; `None` if the field never closes. */
  function ParseQuoted(s: string): (r: Option<(string, string)>)
    ensures r.Some? ==> |r.value.1| < |s|
    decreases |s|
  {
    if |s| == 0 then None
    else if s[0] == Quote then
      if |s| > 1 && s[1] == Quote then
        match ParseQuoted(s[2..])
        case None => None
        case Some((body, rest)) => Some(([Quote] + body, rest))
      else Some(("", s[1..]))
    else
      match ParseQuoted(s[1..])
      case None => None
      case Some((body, rest)) => Some(([s[0]] + body, rest))
  }

  /** A field that does not start with a quote runs up to the next comma
      or line break. */
  function ParseBare(s: string): (r: (string, string))
    ensures |r.1| <= |s|
    ensures r.0 + r.1 == s
    decreases |s|
  {
    if |s| == 0 || s[0] == ',' || s[0] == '\n' then ("", s)
    else
      var r := ParseBare(s[1..]);
      assert [s[0]] + r.0 + r.1 == [s[0]] + (r.0 + r.1);
      ([s[0]] + r.0, r.1)
  }

  function ParseField(s: string): (r: Option<(string, string)>)
    ensures r.Some? ==> |r.value.1| <= |s|
  {
    if |s| > 0 && s[0] == Quote then ParseQuoted(s[1..]) else Some(ParseBare(s))
  }

  /** One record: fields separated by commas, ended by a line break (the
      text after it is returned) or by the end of the input (`None`). Any
      other character after a closing quote is an error. */
  function ParseRecord(s: string): (r: Option<(seq<string>, Option<string>)>)
    ensures r.Some? && r.value.1.Some? ==> |r.value.1.value| < |s|
    decreases |s|
  {
    match ParseField(s)
    case None => None
    case Some((field, rest)) =>
      if |rest| == 0 then Some(([field], None))
      else if rest[0] == '\n' then Some(([field], Some(rest[1..])))
      else if rest[0] == ',' then
        match ParseRecord(rest[1..])
        case None => None
        case Some((fields, more)) => Some(([field] + fields, more))
      else None
  }

  function ParseRecords(s: string): Option<seq<seq<string>>>
    decreases |s|
  {
    match ParseRecord(s)
    case None => None
    case Some((fields, None)) => Some([fields])
    case Some((fields, Some(more))) =>
      match ParseRecords(more)
      case None => None
      case Some(records) => Some([fields] + records)
  }

  /** The whole text; the empty text holds no record. */
  function Decode(s: string): Option<seq<seq<string>>> {
    if s == "" then Some([]) else ParseRecords(s)
  }

  // ---------------------------------------------------------------------
  // Round trip

  /** A field's body is read back up to its closing quote, provided the
      text after the quote does not start with another quote. */
  lemma {:induction false} QuotedRoundTrip(cell: string, rest: string)
    requires |rest| == 0 || rest[0] != Quote
    ensures ParseQuoted(DoubleQuotes(cell) + [Quote] + rest) == Some((cell, rest))
    decreases |cell|
  {
    var s := DoubleQuotes(cell) + [Quote] + rest;
    if |cell| == 0 {
      assert s == [Quote] + rest;
      assert s[1..] == rest;
    } else if cell[0] == Quote {
      QuotedRoundTrip(cell[1..], rest);
      assert s == [Quote, Quote] + (DoubleQuotes(cell[1..]) + [Quote] + rest);
      assert s[2..] == DoubleQuotes(cell[1..]) + [Quote] + rest;
      assert [Quote] + cell[1..] == cell;
    } else {
      QuotedRoundTrip(cell[1..], rest);
      assert s == [cell[0]] + (DoubleQuotes(cell[1..]) + [Quote] + rest);
      assert s[1..] == DoubleQuotes(cell[1..]) + [Quote] + rest;
      assert [cell[0]] + cell[1..] == cell;
    }
  }

  lemma FieldRoundTrip(cell: string, rest: string)
    requires |rest| == 0 || rest[0] != Quote
    ensures ParseField(EscapeCell(cell) + rest) == Some((cell, rest))
  {
    var s := EscapeCell(cell) + rest;
    assert s[1..] == DoubleQuotes(cell) + [Quote] + rest;
    QuotedRoundTrip(cell, rest);
  }

  /** A non-empty row is read back as its cells; what follows the row (the
      end of the text or a line break) decides whether more records follow. */
  lemma {:induction false} RowRoundTrip(cells: seq<string>, tail: string)
    requires |cells| > 0
    requires |tail| == 0 || tail[0] == '\n'
    ensures ParseRecord(EncodeRow(cells) + tail) == Some((cells, if |tail| == 0 then None else Some(tail[1..])))
    decreases |cells|
  {
    if |cells| == 1 {
      assert EncodeRow(cells) == EscapeCell(cells[0]);
      FieldRoundTrip(cells[0], tail);
      assert cells == [cells[0]];
    } else {
      var restRow := EncodeRow(cells[1..]);
      EncodeRowCons(cells);
      var s := EncodeRow(cells) + tail;
      assert s == EscapeCell(cells[0]) + ("," + (restRow + tail));
      FieldRoundTrip(cells[0], "," + (restRow + tail));
      ParseRecordComma(s, cells[0], restRow + tail);
      RowRoundTrip(cells[1..], tail);
      assert [cells[0]] + cells[1..] == cells;
    }
  }

  /** A field followed by a comma: the record is that field and then the
      record after the comma. */
  lemma ParseRecordComma(s: string, field: string, after: string)
    requires ParseField(s) == Some((field, "," + after))
    ensures ParseRecord(s) == match ParseRecord(after)
      case None => None
      case Some((fields, more)) => Some(([field] + fields, more))
  {
    assert ("," + after)[1..] == after;
  }

  /** A row of several cells: the first cell, a comma, and the rest. */
  lemma EncodeRowCons(cells: seq<string>)
    requires |cells| > 1
    ensures EncodeRow(cells) == EscapeCell(cells[0]) + "," + EncodeRow(cells[1..])
  {
    var escaped := EscapeAll(cells);
    assert escaped[0] == EscapeCell(cells[0]);
    assert escaped[1..] == EscapeAll(cells[1..]);
  }

  /** Decoding what the encoder wrote gives back the rows, whenever no row
      is empty (the exporter's rows all have three cells). */
  lemma EncodeDecodeRoundTrip(rows: seq<seq<string>>)
    requires forall i :: 0 <= i < |rows| ==> |rows[i]| > 0
    ensures Decode(Encode(rows)) == Some(rows)
  {
    if |rows| > 0 {
      RowsRoundTrip(rows);
      assert EncodeRow(rows[0])[0] == Quote by {
        assert EscapeAll(rows[0])[0] == EscapeCell(rows[0][0]);
      }
    }
  }

  /** The encoded text of several rows: the first row, a line break, and
      the rest encoded. */
  lemma EncodeCons(rows: seq<seq<string>>)
    requires |rows| > 1
    ensures Encode(rows) == EncodeRow(rows[0]) + "\n" + Encode(rows[1..])
  {
    var lines := EncodeRows(rows);
    assert lines[0] == EncodeRow(rows[0]);
    assert lines[1..] == EncodeRows(rows[1..]);
  }

  lemma {:induction false} RowsRoundTrip(rows: seq<seq<string>>)
    requires |rows| > 0
    requires forall i :: 0 <= i < |rows| ==> |rows[i]| > 0
    ensures ParseRecords(Encode(rows)) == Some(rows)
    decreases |rows|
  {
    if |rows| == 1 {
      assert Encode(rows) == EncodeRow(rows[0]);
      RowRoundTrip(rows[0], "");
      assert EncodeRow(rows[0]) + "" == EncodeRow(rows[0]);
      assert rows == [rows[0]];
    } else {
      var rest := Encode(rows[1..]);
      var tail := "\n" + rest;
      EncodeCons(rows);
      assert Encode(rows) == EncodeRow(rows[0]) + tail;
      RowRoundTrip(rows[0], tail);
      assert tail[1..] == rest;
      RowsRoundTrip(rows[1..]);
      assert [rows[0]] + rows[1..] == rows;
    }
  }
}
