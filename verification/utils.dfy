/**
  The Python convenience layer: building cells from arbitrary Python values, and
  tables from rows of such values or of plain strings.
*/
module Utils {
  import opened Wrappers
  import Native
  import Settings
  import Tables

  /**
    The kinds of Python value `auto_cell` tells apart. `Other` stands for any other
    object and carries the text `str()` gives for it.
  */
  datatype PyValue =
    | PyNone
    | PyCell(cell: Tables.Cell)
    | PyContent(content: Tables.Content)
    | PyStr(s: string)
    | Other(str: string)

  /**
    `auto_cell`: `None` becomes an empty cell, a cell is returned as it is, a content
    is put into a new cell, and a string (or any other value's `str()`) becomes a
    text cell. Apart from a given cell, the result is the default cell with only its
    content and the width derived from that content set.
  */
  function AutoCell(v: PyValue): (c: Tables.Cell)
    ensures v.PyCell? ==> c == v.cell
    ensures v.PyNone? ==> c.content == Tables.Content.Empty && c.width.None?
    ensures v.PyContent? ==> c.content == v.content
    ensures v.PyStr? ==> c.content.content == Native.Text(v.s) && c.width.Some?
    ensures v.Other? ==> c.content.content == Native.Text(v.str) && c.width.Some?
    ensures !v.PyCell? ==>
              c.width == Tables.ContentWidth(c.content) &&
              c.(content := Tables.DefaultContent(), width := None) == Tables.DefaultCell()
  {
    match v
    case PyNone => Tables.NewCell(Tables.Content.Empty)
    case PyCell(cell) => cell
    case PyContent(content) => Tables.NewCell(content)
    case PyStr(s) => Tables.NewCell(Tables.NewContent(s))
    case Other(str) => Tables.NewCell(Tables.NewContent(str))
  }

  /** `auto_cell` applied to every value of a row. */
  function AutoRow(row: seq<PyValue>): (r: seq<Tables.Cell>)
    ensures |r| == |row|
    ensures forall j :: 0 <= j < |row| ==> r[j] == AutoCell(row[j])
  {
    seq(|row|, j requires 0 <= j < |row| => AutoCell(row[j]))
  }

  /** `auto_cell` applied to every value of every row. */
  function AutoRows(rows: seq<seq<PyValue>>): (r: seq<seq<Tables.Cell>>)
    ensures |r| == |rows|
    ensures forall i :: 0 <= i < |rows| ==> r[i] == AutoRow(rows[i])
  {
    seq(|rows|, i requires 0 <= i < |rows| => AutoRow(rows[i]))
  }

  /** `auto_table_from`: a table of the same shape, each value turned into a cell. */
  function AutoTableFrom(v: seq<seq<PyValue>>): (t: Tables.Table)
    ensures |t.rows| == |v|
    ensures forall i :: 0 <= i < |v| ==> |t.rows[i]| == |v[i]|
    ensures forall i, j :: 0 <= i < |v| && 0 <= j < |v[i]| ==> t.rows[i][j] == AutoCell(v[i][j])
    ensures t.border == Settings.Border.Default
  {
    Tables.NewTable(AutoRows(v))
  }

  /**
    `auto_table_create`: `Table.create` of the converted header and body with the same
    splitter flag.
  */
  function AutoTableCreate(header: seq<PyValue>, content: seq<seq<PyValue>>, splitter: bool): (t: Tables.Table)
    ensures t.border == Settings.Border.Default
    ensures |t.rows| == |content| + if splitter then 2 else 1
    ensures |t.rows[0]| == |header|
    ensures forall i :: 0 <= i < |content| ==>
              t.rows[i + if splitter then 2 else 1] == AutoRow(content[i])
    ensures !splitter ==> forall j :: 0 <= j < |header| ==> t.rows[0][j] == AutoCell(header[j])
    ensures splitter ==> |t.rows[1]| == |header|
    ensures splitter ==> forall j :: 0 <= j < |header| ==>
              t.rows[0][j] == Tables.WithFormatter(AutoCell(header[j]), Tables.BoldChain) &&
              t.rows[1][j] == Tables.SplitterCell()
  {
    var t := Tables.NativeCreate(AutoRow(header), AutoRows(content), splitter);
    assert splitter ==> t.rows[2..] == AutoRows(content);
    assert !splitter ==> t.rows[1..] == AutoRows(content);
    t
  }

  /** The text cell `Cell(Content(s))` the plain-text helpers build. */
  function TextCell(s: string): (c: Tables.Cell)
    ensures c == AutoCell(PyStr(s))
  {
    Tables.NewCell(Tables.NewContent(s))
  }

  /** Strings as Python values. */
  function StrRows(text: seq<seq<string>>): (r: seq<seq<PyValue>>)
    ensures |r| == |text|
    ensures forall i :: 0 <= i < |text| ==> |r[i]| == |text[i]|
    ensures forall i, j :: 0 <= i < |text| && 0 <= j < |text[i]| ==> r[i][j] == PyStr(text[i][j])
  {
    seq(|text|, i requires 0 <= i < |text| =>
      seq(|text[i]|, j requires 0 <= j < |text[i]| => PyStr(text[i][j])))
  }

  /** Strings of a header row as Python values. */
  function StrRow(header: seq<string>): (r: seq<PyValue>)
    ensures |r| == |header|
    ensures forall j :: 0 <= j < |header| ==> r[j] == PyStr(header[j])
  {
    seq(|header|, j requires 0 <= j < |header| => PyStr(header[j]))
  }

  /** The rows of `Cell(Content(s))` the plain-text helpers build. */
  function TextRows(text: seq<seq<string>>): seq<seq<Tables.Cell>> {
    seq(|text|, i requires 0 <= i < |text| =>
      seq(|text[i]|, j requires 0 <= j < |text[i]| => TextCell(text[i][j])))
  }

  /** Building text cells directly is `auto_cell` on the strings. */
  lemma TextRowsAreAutoRows(text: seq<seq<string>>)
    ensures TextRows(text) == AutoRows(StrRows(text))
  {
    var t, a := TextRows(text), AutoRows(StrRows(text));
    forall i | 0 <= i < |text|
      ensures t[i] == a[i]
    {
      assert |t[i]| == |a[i]|;
      forall j | 0 <= j < |text[i]|
        ensures t[i][j] == a[i][j]
      {
        assert a[i][j] == AutoCell(PyStr(text[i][j]));
      }
    }
  }

  /** The table `from_plaintext` builds from its argument (before discarding it). */
  function PlaintextTable(text: seq<seq<string>>): (t: Tables.Table)
    ensures t == AutoTableFrom(StrRows(text))
  {
    TextRowsAreAutoRows(text);
    Tables.NewTable(TextRows(text))
  }

  /** The table `create_from_plaintext` builds from its arguments (before discarding it). */
  function PlaintextCreatedTable(header: seq<string>, content: seq<seq<string>>, splitter: bool): (t: Tables.Table)
    ensures t == AutoTableCreate(StrRow(header), StrRows(content), splitter)
  {
    var h := seq(|header|, j requires 0 <= j < |header| => TextCell(header[j]));
    assert h == AutoRow(StrRow(header));
    TextRowsAreAutoRows(content);
    Tables.NativeCreate(h, TextRows(content), splitter)
  }

  /**
    `from_plaintext` as written: the table is built but the function has no `return`,
    so the caller receives `None`.
  */
  function FromPlaintext(text: seq<seq<string>>): (r: Option<Tables.Table>)
    ensures r.None?
  {
    var _ := PlaintextTable(text);
    None
  }

  /** `create_from_plaintext` as written: likewise yields `None`. */
  function CreateFromPlaintext(header: seq<string>, content: seq<seq<string>>, splitter: bool): (r: Option<Tables.Table>)
    ensures r.None?
  {
    var _ := PlaintextCreatedTable(header, content, splitter);
    None
  }

  /** The annotated and documented intent: return the table that was built. */
  function FromPlaintextReturning(text: seq<seq<string>>): (r: Option<Tables.Table>)
    ensures r == Some(AutoTableFrom(StrRows(text)))
  {
    Some(PlaintextTable(text))
  }

  /** The annotated and documented intent: return the table that was built. */
  function CreateFromPlaintextReturning(header: seq<string>, content: seq<seq<string>>, splitter: bool): (r: Option<Tables.Table>)
    ensures r == Some(AutoTableCreate(StrRow(header), StrRows(content), splitter))
  {
    Some(PlaintextCreatedTable(header, content, splitter))
  }

  /** As written, even a one-cell input gives no table back, though one was built. */
  lemma FromPlaintextDropsTable()
    ensures |PlaintextTable([["a"]]).rows| == 1
    ensures FromPlaintext([["a"]]) == None
    ensures FromPlaintextReturning([["a"]]) != FromPlaintext([["a"]])
  {
  }

  /** As written, `create_from_plaintext` also gives no table back. */
  lemma CreateFromPlaintextDropsTable()
    ensures |PlaintextCreatedTable(["h"], [], true).rows| == 2
    ensures CreateFromPlaintext(["h"], [], true) == None
    ensures CreateFromPlaintextReturning(["h"], [], true) != CreateFromPlaintext(["h"], [], true)
  {
  }
}
