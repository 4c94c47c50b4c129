/**
  Cells and tables: the builder operations on a cell, span generation, table
  construction with an optional header splitter, the table-wide overflow override, and
  the hand-off to the rendering engine.
*/
module Tables {
  import opened Wrappers
  import Native
  import Settings

  // ---------------------------------------------------------------------------
  // Content
  // ---------------------------------------------------------------------------

  /** `Content`, a wrapper around the engine's content: text, a splitter, or nothing. */
  datatype Content = Content(content: Native.Content) {
    static const Empty := Content(Native.None)
    static const Splitter := Content(Native.Splitter)
  }

  /** `Content::__new__`: a piece of text. */
  function NewContent(s: string): (c: Content)
    ensures c.content.Text? && c.content.text == s
    ensures ContentWidth(c).Some?
  {
    Content(Native.Text(s))
  }

  /** The derived `Content::default()`: the engine's default content, wrapped. */
  function DefaultContent(): (c: Content)
    ensures c.content == Native.DefaultContent
  {
    Content(Native.DefaultContent)
  }

  /** The intrinsic width the engine reports for a content (`get_width`). */
  function ContentWidth(c: Content): (w: Option<nat>)
    ensures w.Some? <==> c.content.Text?
    ensures c == Content.Empty || c == Content.Splitter ==> w.None?
  {
    Native.GetWidth(c.content)
  }

  // ---------------------------------------------------------------------------
  // Cell
  // ---------------------------------------------------------------------------

  /** `Cell`: one table slot with its content, layout settings and formatter chain. */
  datatype Cell = Cell(
    content: Content,
    overflow: Settings.Overflow,
    width: Option<nat>,
    align: Settings.Align,
    padding: Settings.Padding,
    merge: Option<nat>,
    formatter: seq<Settings.Formatter>)

  /** The derived `Cell::default()`: every field at its type's default. */
  function DefaultCell(): (c: Cell)
    ensures c.width.None? && c.merge.None? && c.formatter == []
    ensures c.padding == Settings.Padding.Empty
    ensures c.content == DefaultContent()
    ensures c.overflow == Settings.DefaultOverflow() && c.align == Settings.DefaultAlign()
  {
    Cell(DefaultContent(), Settings.DefaultOverflow(), None, Settings.DefaultAlign(),
         Settings.DefaultPadding(), None, [])
  }

  /**
    `with_content` / `native_with_content`: the new content, and the width re-derived
    from it, replacing any width set before; no other field changes.
  */
  function WithContent(cell: Cell, c: Content): (r: Cell)
    ensures r.content == c
    ensures r.width == ContentWidth(c)
    ensures r.(content := cell.content, width := cell.width) == cell
  {
    cell.(width := ContentWidth(c), content := c)
  }

  /** `Cell::__new__`: the default cell with the content applied. */
  function NewCell(c: Content): (r: Cell)
    ensures r.content == c && r.width == ContentWidth(c)
    ensures r.(content := DefaultContent(), width := None) == DefaultCell()
  {
    WithContent(DefaultCell(), c)
  }

  /** `with_overflow` / `native_with_overflow` / `native_set_overflow`. */
  function WithOverflow(cell: Cell, o: Settings.Overflow): (r: Cell)
    ensures r.overflow == o
    ensures r.(overflow := cell.overflow) == cell
  {
    cell.(overflow := o)
  }

  /** `with_width` / `native_with_width`: an explicit width, or none. */
  function WithWidth(cell: Cell, w: Option<nat>): (r: Cell)
    ensures r.width == w
    ensures r.(width := cell.width) == cell
  {
    cell.(width := w)
  }

  /** `with_align` / `native_with_align`. */
  function WithAlign(cell: Cell, a: Settings.Align): (r: Cell)
    ensures r.align == a
    ensures r.(align := cell.align) == cell
  {
    cell.(align := a)
  }

  /** `with_padding` / `native_with_padding`. */
  function WithPadding(cell: Cell, p: Settings.Padding): (r: Cell)
    ensures r.padding == p
    ensures r.(padding := cell.padding) == cell
  {
    cell.(padding := p)
  }

  /** `with_merge` / `native_with_merge`: any span, `Some(0)` included, is accepted. */
  function WithMerge(cell: Cell, m: Option<nat>): (r: Cell)
    ensures r.merge == m
    ensures r.(merge := cell.merge) == cell
  {
    cell.(merge := m)
  }

  /** `with_formatter` / `native_with_formatter`: the chain is replaced, not extended. */
  function WithFormatter(cell: Cell, fs: seq<Settings.Formatter>): (r: Cell)
    ensures r.formatter == fs
    ensures r.(formatter := cell.formatter) == cell
  {
    cell.(formatter := fs)
  }

  /**
    `append_formatter` / `with_appended_formatter`: the old chain, then the formatters of
    the Python list in the order given (the list itself is not changed).
  */
  function AppendFormatter(cell: Cell, fs: seq<Settings.Formatter>): (r: Cell)
    ensures |r.formatter| == |cell.formatter| + |fs|
    ensures r.formatter[..|cell.formatter|] == cell.formatter
    ensures r.formatter[|cell.formatter|..] == fs
    ensures r.(formatter := cell.formatter) == cell
  {
    cell.(formatter := cell.formatter + fs)
  }

  /**
    `native_append_formatter(&mut self, &mut Vec)` and
    `native_with_appended_formatter(self, &mut Vec)`: `Vec::append` moves the formatters
    over, so the caller's vector is left empty.
  */
  function NativeAppendFormatter(cell: Cell, fs: seq<Settings.Formatter>): (r: (Cell, seq<Settings.Formatter>))
    ensures |r.0.formatter| == |cell.formatter| + |fs|
    ensures r.0.formatter[..|cell.formatter|] == cell.formatter
    ensures r.0.formatter[|cell.formatter|..] == fs
    ensures r.0.(formatter := cell.formatter) == cell
    ensures r.1 == []
  {
    (AppendFormatter(cell, fs), [])
  }

  /**
    `with_span`: the cell itself, now declaring a merge over `span` further columns and
    with its width cleared, followed by `span` default placeholder cells.
  */
  method WithSpan(cell: Cell, span: nat) returns (v: seq<Cell>)
    ensures |v| == span + 1
    ensures v[0].merge == Some(span) && v[0].width.None?
    ensures v[0].(merge := cell.merge, width := cell.width) == cell
    ensures forall i :: 1 <= i < |v| ==> v[i] == DefaultCell()
  {
    var head := WithWidth(WithMerge(cell, Some(span)), None);
    v := [head];
    var k := 0;
    while k < span
      invariant 0 <= k <= span
      invariant |v| == k + 1 && v[0] == head
      invariant forall i :: 1 <= i < |v| ==> v[i] == DefaultCell()
    {
      v := v + [DefaultCell()];
      k := k + 1;
    }
  }

  // ---------------------------------------------------------------------------
  // Table
  // ---------------------------------------------------------------------------

  /** `Table`: rows of cells (not required to have equal lengths) and a border. */
  datatype Table = Table(rows: seq<seq<Cell>>, border: Settings.Border)

  /** `Table::new` (and the `__new__` constructor): the rows as given, no border. */
  function NewTable(rows: seq<seq<Cell>>): (t: Table)
    ensures t.rows == rows
    ensures t.border == Settings.Border.Default
  {
    Table(rows, Settings.Border.Default)
  }

  /** The bold formatter chain `native_create` gives the header. */
  const BoldChain: seq<Settings.Formatter> := [Settings.Formatter.Bold]

  /** One cell of the synthetic splitter row. */
  function SplitterCell(): (c: Cell)
    ensures c.content == Content.Splitter && c.width.None?
    ensures c.formatter == BoldChain
    ensures c.(content := DefaultContent(), formatter := []) == DefaultCell()
  {
    WithFormatter(WithContent(DefaultCell(), Content.Splitter), BoldChain)
  }

  /**
    `Table::native_create` (behind `Table::create`). With a splitter, the header's
    chains are replaced by exactly `[Bold]` and a row of bold splitter cells, one per
    header cell, follows it; without one, the header is used untouched. The body rows
    follow unchanged, and there is no border.
  */
  function NativeCreate(header: seq<Cell>, body: seq<seq<Cell>>, splitter: bool): (t: Table)
    ensures t.border == Settings.Border.Default
    ensures splitter ==> |t.rows| == 2 + |body|
    ensures splitter ==> |t.rows[0]| == |header| && |t.rows[1]| == |header|
    ensures splitter ==> forall i :: 0 <= i < |header| ==>
              t.rows[0][i] == WithFormatter(header[i], BoldChain) && t.rows[1][i] == SplitterCell()
    ensures splitter ==> t.rows[2..] == body
    ensures !splitter ==> |t.rows| == 1 + |body| && t.rows[0] == header && t.rows[1..] == body
  {
    var top :=
      if splitter then
        var bold := seq(|header|, i requires 0 <= i < |header| => WithFormatter(header[i], BoldChain));
        var rule := seq(|header|, _ => SplitterCell());
        [bold, rule]
      else
        [header];
    Table(top + body, Settings.Border.Default)
  }

  /** `with_border`: the border replaced wholesale; the cells untouched. */
  function WithBorder(t: Table, b: Settings.Border): (r: Table)
    ensures r.border == b && r.rows == t.rows
  {
    t.(border := b)
  }

  /**
    `overwrite_overflow`: every cell of every row gets the given overflow policy,
    whatever it had; nothing else about the table changes.
  */
  method OverwriteOverflow(t: Table, o: Settings.Overflow) returns (r: Table)
    ensures r.border == t.border
    ensures |r.rows| == |t.rows|
    ensures forall i :: 0 <= i < |t.rows| ==> |r.rows[i]| == |t.rows[i]|
    ensures forall i, j :: 0 <= i < |t.rows| && 0 <= j < |t.rows[i]| ==>
              r.rows[i][j] == WithOverflow(t.rows[i][j], o)
    ensures TableSize(r) == TableSize(t)
  {
    var rows := t.rows;
    var i := 0;
    while i < |rows|
      invariant 0 <= i <= |rows| == |t.rows|
      invariant forall k :: 0 <= k < |rows| ==> |rows[k]| == |t.rows[k]|
      invariant forall k, j :: 0 <= k < i && 0 <= j < |rows[k]| ==> rows[k][j] == WithOverflow(t.rows[k][j], o)
      invariant rows[i..] == t.rows[i..]
    {
      var row := rows[i];
      var j := 0;
      while j < |row|
        invariant 0 <= j <= |row| == |t.rows[i]|
        invariant forall m :: 0 <= m < j ==> row[m] == WithOverflow(t.rows[i][m], o)
        invariant row[j..] == t.rows[i][j..]
      {
        row := row[j := WithOverflow(row[j], o)];
        j := j + 1;
      }
      rows := rows[i := row];
      i := i + 1;
    }
    r := Table(rows, t.border);
  }

  /** The size `__repr__` reports, as (columns, rows). */
  datatype Size = Size(columns: nat, rows: nat)

  /** `__repr__`'s size: "0x0" for no rows, else the first row's length by the row count. */
  function TableSize(t: Table): (s: Size)
    ensures t.rows == [] ==> s == Size(0, 0)
    ensures t.rows != [] ==> s.rows == |t.rows| && s.columns == |t.rows[0]|
  {
    if t.rows == [] then Size(0, 0) else Size(|t.rows[0]|, |t.rows|)
  }

  /** Re-assigning content discards an explicit width set before it. */
  lemma WithContentOverridesWidth(cell: Cell, w: Option<nat>, c: Content)
    ensures WithContent(WithWidth(cell, w), c) == WithContent(cell, c)
  {
  }

  /** Appending in two steps is appending the concatenation. */
  lemma AppendFormatterTwice(cell: Cell, a: seq<Settings.Formatter>, b: seq<Settings.Formatter>)
    ensures AppendFormatter(AppendFormatter(cell, a), b) == AppendFormatter(cell, a + b)
  {
  }

  /** Without a splitter, `create` is `Table::new` of the header followed by the body. */
  lemma CreateWithoutSplitter(header: seq<Cell>, body: seq<seq<Cell>>)
    ensures NativeCreate(header, body, false) == NewTable([header] + body)
  {
  }

  /** A created table is as wide as its header and has one or two rows more than its body. */
  lemma CreateSize(header: seq<Cell>, body: seq<seq<Cell>>, splitter: bool)
    ensures TableSize(NativeCreate(header, body, splitter)) == Size(|header|, |body| + if splitter then 2 else 1)
  {
  }

  // ---------------------------------------------------------------------------
  // Hand-off to the rendering engine
  // ---------------------------------------------------------------------------

  /** `Cell::to_native`, as a field projection; each formatter becomes its transform. */
  function CellToNative(c: Cell): (n: Native.Cell<Settings.FormatFunc>)
    ensures n.content == c.content.content && n.width == c.width && n.merge == c.merge
    ensures Settings.Align(n.align) == c.align && Settings.Overflow(n.overflow) == c.overflow
    ensures Settings.NewPadding(n.padding.left, n.padding.right) == c.padding
    ensures |n.formatter| == |c.formatter|
    ensures forall k :: 0 <= k < |c.formatter| ==> n.formatter[k] == Settings.AsFunc(c.formatter[k])
  {
    Native.Cell(
      c.content.content,
      Settings.AlignToNative(c.align),
      Settings.OverflowToNative(c.overflow),
      c.width,
      Settings.PaddingToNative(c.padding),
      c.merge,
      seq(|c.formatter|, k requires 0 <= k < |c.formatter| => Settings.AsFunc(c.formatter[k])))
  }

  /** `Table::to_native`: the same shape, cell by cell, and the border's flags. */
  function TableToNative(t: Table): (n: Native.Table<Settings.FormatFunc>)
    ensures |n.rows| == |t.rows|
    ensures forall i :: 0 <= i < |t.rows| ==> |n.rows[i]| == |t.rows[i]|
    ensures forall i, j :: 0 <= i < |t.rows| && 0 <= j < |t.rows[i]| ==>
              n.rows[i][j] == CellToNative(t.rows[i][j])
    ensures Settings.NewBorder(n.border.left, n.border.right, n.border.top, n.border.bottom) == t.border
  {
    var rows := seq(|t.rows|, i requires 0 <= i < |t.rows| =>
      seq(|t.rows[i]|, j requires 0 <= j < |t.rows[i]| => CellToNative(t.rows[i][j])));
    Native.Table(rows, Settings.BorderToNative(t.border))
  }

  /** The errors `render` surfaces. */
  datatype RenderError =
    | FormattingFailure(message: string)   // the engine failed; `FormatterError` with its message
    | EncodingFailure(bytes: seq<bv8>)     // the engine's output is not UTF-8; a Unicode error

  /**
    `Table::render`: hand the native table and mode to the engine; an engine error
    becomes a formatting failure carrying its message, output that does not decode as
    UTF-8 an encoding failure, and decoded output the result. The engine and the UTF-8
    decoder are parameters.
  */
  function Render(
    t: Table,
    mode: Settings.Renderer,
    engine: (Native.Table<Settings.FormatFunc>, Native.Renderer) -> Native.Rendered,
    fromUtf8: seq<bv8> -> Option<string>): (r: Result<string, RenderError>)
    ensures engine(TableToNative(t), Settings.RendererToNative(mode)).RenderFailed? ==>
              r == Failure(FormattingFailure(engine(TableToNative(t), Settings.RendererToNative(mode)).message))
    ensures engine(TableToNative(t), Settings.RendererToNative(mode)).Written? ==>
              var bytes := engine(TableToNative(t), Settings.RendererToNative(mode)).bytes;
              (r.Success? <==> fromUtf8(bytes).Some?) &&
              (r.Success? ==> r.value == fromUtf8(bytes).value) &&
              (r.Failure? ==> r.error == EncodingFailure(bytes))
  {
    match engine(TableToNative(t), Settings.RendererToNative(mode))
    case RenderFailed(msg) => Failure(FormattingFailure(msg))
    case Written(bytes) =>
      match fromUtf8(bytes)
      case Some(s) => Success(s)
      case None => Failure(EncodingFailure(bytes))
  }
}
