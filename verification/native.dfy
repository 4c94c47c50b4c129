/**
  The value types of the external `table_formatter` rendering engine, as far as the
  bindings depend on them. The engine's own choices that are not visible here (the
  width it measures for a piece of text, and the `Default` values of its content,
  alignment and overflow types) are left uninterpreted: they are constants with no
  defining value, so nothing proved in this model depends on them.
*/
module Native {
  import opened Wrappers

  /** `table::Content`. */
  datatype Content = Text(text: string) | Splitter | None

  /** `table::Align`. */
  datatype Align = Left | Right | Center

  /** `table::Overflow`. */
  datatype Overflow = Hidden | Ellipsis

  /** `table::Padding`, with `usize` fields. */
  datatype Padding = Padding(left: nat, right: nat)

  /** `table::Border`, built positionally as `(left, right, top, bottom)`. */
  datatype Border = Border(left: bool, right: bool, top: bool, bottom: bool)

  /** `table::Renderer`, the engine's output-mode selector. */
  datatype Renderer = Normal | Raw | Markdown

  /** Display width the engine measures for a piece of text (uninterpreted). */
  const TextWidth: string -> nat

  /** `table::Content::default()` (uninterpreted). */
  const DefaultContent: Content

  /** `table::Align::default()` (uninterpreted). */
  const DefaultAlign: Align

  /** `table::Overflow::default()` (uninterpreted). */
  const DefaultOverflow: Overflow

  /**
    `table::Content::get_width`, as assumed here: text has an intrinsic width, the
    splitter and the empty content have none.
  */
  function GetWidth(c: Content): (w: Option<nat>)
    ensures w.Some? <==> c.Text?
    ensures c.Text? ==> w == Some(TextWidth(c.text))
  {
    match c
    case Text(s) => Some(TextWidth(s))
    case Splitter => Option.None
    case None => Option.None
  }

  /**
    `table::Cell`, fully resolved, as the engine receives it. The engine's formatter
    entries are boxed closures; `F` stands for whatever the bindings put there.
  */
  datatype Cell<F> = Cell(
    content: Content,
    align: Align,
    overflow: Overflow,
    width: Option<nat>,
    padding: Padding,
    merge: Option<nat>,
    formatter: seq<F>)

  /** `table::Table`: the cell matrix and the border flags. */
  datatype Table<F> = Table(rows: seq<seq<Cell<F>>>, border: Border)

  /** What `Table::rendered_by` reports: the bytes it wrote, or its error's message. */
  datatype Rendered = Written(bytes: seq<bv8>) | RenderFailed(message: string)
}
