# rs-tabler: the table and cell data model, in Dafny

This project models the core of `tabler`, a Rust library with Python bindings for building
text tables. Callers build cells. Each cell carries content, an overflow policy, an optional
width, an alignment, padding, an optional merge span and a chain of text formatters. Cells are
collected into rows and rows into a table with a border, and the table is handed to the
external `table_formatter` engine to be rendered as ANSI text, raw text or Markdown.

Everything is modelled as immutable datatypes and pure functions. The Rust builders change a
value in place, and most also return it; here each builder returns the updated value.
`append_formatter` returns nothing to Python and `with_appended_formatter` returns the cell, so in
both cases `AppendFormatter`'s result is the cell as updated in place.

- `wrappers.dfy` (module `Wrappers`): `Option` and `Result`.
- `native.dfy` (module `Native`): the engine's value types, which the bindings wrap.
  - Four things the engine decides are constants with no defining value: the width it
    measures for text, and the `Default` values of its content, alignment and overflow types.
    No proof depends on their values.
- `settings.dfy` (module `Settings`), for `src/settings.rs`:
  - the 18 palette colours and `from_color_name`, with its space-stripping and ASCII
    lower-casing;
  - formatters as tagged values, and `as_func`'s choice between a static `Colorize` method
    and a truecolour closure;
  - `Padding`, `Align`, `Overflow`, `Border` and `Renderer`, with their presets and their
    `to_native` conversions.
- `table.dfy` (module `Tables`), for `src/table.rs`:
  - `Content` and `Cell`, and every cell builder;
  - span generation;
  - table construction with the optional header splitter;
  - `with_border`, the table-wide overflow override, and the size shown by `__repr__`;
  - the hand-off to the engine in `render`.
- `utils.dfy` (module `Utils`), for `tabler/utils.py`: `auto_cell` and the table helpers
  built on it.

Most Rust builders come in two forms: a Python-facing `with_x` that takes a `PyRefMut`, and a
by-value `native_with_x`. Where both assign the same field, one Dafny function models both, and
`native_set_overflow` is also `WithOverflow`. The formatter appenders come in two pairs.
`append_formatter` and `with_appended_formatter` read a Python list and leave it alone
(`AppendFormatter`). `native_append_formatter` and `native_with_appended_formatter` move the
items out of a `Vec` and leave it empty (`NativeAppendFormatter`). `with_span` has one form.
The model uses the code's spelling `rbg_color`/`on_rbg_color` (`RbgColorFormatter`,
`OnRbgColorFormatter`).

Two behaviours of the code are worth stating plainly:
- `native_create` replaces each header cell's formatter chain with exactly `[Bold]`, and only
  when `splitter` is true (src/table.rs:345-361). Without a splitter the header is left as given.
- `with_span` and `with_merge` accept a span of 0, so `merge == Some(0)` can occur.

## Model

| member | source | states |
|---|---|---|
| Settings.Normalize | src/settings.rs:269 | the lookup key has no spaces and no ASCII upper-case letters |
| Settings.KeyColor | src/settings.rs:270-288 | a key selects a colour exactly when it is one of the 18 keys, and then it selects the colour with that key |
| Settings.RemoveSpaces | src/settings.rs:269 | the result contains no space and is no longer than the input |
| Settings.RemoveSpacesKeepsOthers | src/settings.rs:269 | every character other than a space occurs in the result exactly as often as in the input |
| Settings.RemoveSpacesAppend | src/settings.rs:269 | removing spaces from a concatenation is removing them from each part, in order |
| Settings.AsciiLower | src/settings.rs:269 | each capital 'A'..'Z' becomes its small letter 'a'..'z' and every other character is kept, so no capital remains |
| Settings.AsciiLowerIdentifiesCase | src/settings.rs:269 | two characters lower-case to the same character exactly when they are equal or are the capital and small form of one ASCII letter |
| Settings.AsciiLowercase | src/settings.rs:269 | the result has the input's length, and each position holds that input character with 'A'..'Z' turned into 'a'..'z' and everything else kept |
| Settings.FromColorName | src/settings.rs:268-290 | the lookup succeeds exactly when the normalised input equals one of the 18 keys, and returns the colour with that key. Otherwise the error message is "Invalid Color Name: " followed by the input as given, not normalised |
| Settings.DisplayName | src/settings.rs:304-326 | the name `Color::repr` shows starts with "bright " exactly for the nine bright colours, and a base colour's name is a single word with no space |
| Settings.NormalizedNames | src/settings.rs:269-326 | removing spaces from and lower-casing each colour's display name gives exactly the literal that `from_color_name` matches for that colour |
| Settings.MatchKeyInjective | src/settings.rs:270-288 | no two colours share a key, so each of the 18 keys maps to one colour |
| Settings.ColorNameRoundTrip | src/settings.rs:304-326 | looking up the display name `Color::repr` shows for a colour (e.g. "bright black") gives that colour back |
| Settings.FromColorNameIgnoresCase | src/settings.rs:269 | two inputs of the same length whose characters at each position are equal or are the two cases of one ASCII letter name the same colour, or both fail |
| Settings.FromColorNameIgnoresSpace | src/settings.rs:269 | inserting a space anywhere in the input does not change which colour it names, or whether the lookup fails |
| Settings.NormalizeIgnoresCase | src/settings.rs:269 | inputs that differ only in ASCII letter case (each position equal, or the capital and small form of one letter) have the same lookup key |
| Settings.NormalizeIgnoresSpace | src/settings.rs:269 | inserting a space anywhere leaves the lookup key unchanged |
| Settings.ColorFormatter | src/settings.rs:81-83 | `color` wraps a palette colour as the text colour and selects that colour's static foreground method |
| Settings.RbgColorFormatter | src/settings.rs:86-88 | `rbg_color` wraps `(r,g,b)` as the text colour and selects a truecolour closure over the same channels |
| Settings.OnColorFormatter | src/settings.rs:92-94 | `on_color` wraps a palette colour as the background and selects that colour's static background method |
| Settings.OnRbgColorFormatter | src/settings.rs:97-99 | `on_rbg_color` wraps `(r,g,b)` as the background and selects a background truecolour closure |
| Settings.AsFunc | src/settings.rs:155-222 | `as_func` builds a closure exactly for truecolour, in the foreground or the background; every preset and palette colour gets a static method |
| Settings.AsFuncInjective | src/settings.rs:155-222 | distinct formatters select distinct `Colorize` methods or closures. Whether two methods colour text alike (as `purple` and `magenta` do in the `colored` crate) is foreign code |
| Settings.NewPadding | src/settings.rs:350-352 | `Padding::new` stores left and right as given |
| Settings.DefaultPadding | src/settings.rs:334-347 | the derived default padding equals the `Empty` preset `(0, 0)` |
| Settings.PaddingToNative | src/settings.rs:363-368 | the engine padding has the same left and right; `Padding::new` of them gives the original back |
| Settings.DefaultAlign | src/settings.rs:377-381 | the derived default alignment is the engine's default alignment |
| Settings.AlignToNative | src/settings.rs:412-415 | `to_native` is undone by `Align::new`, so no alignment information is lost |
| Settings.DefaultOverflow | src/settings.rs:428-432 | the derived default overflow is the engine's default policy |
| Settings.OverflowToNative | src/settings.rs:459-462 | `to_native` is undone by `Overflow::new` |
| Settings.NewBorder | src/settings.rs:510-518 | `Border::new` keeps the positional order (left, right, top, bottom) |
| Settings.DerivedDefaultBorder | src/settings.rs:471-488 | the derived `Default` border equals the `Border::Default` preset |
| Settings.BorderToNative | src/settings.rs:520-523 | the engine border has the same four flags in the same order |
| Settings.BorderPresets | src/settings.rs:486-497 | `Default` draws no edge; `Horizontal` draws only top and bottom; `Vertical` only left and right; `All` all four |
| Settings.RendererToNative | src/settings.rs:555-562 | each mode maps to the engine mode of the same name, and to no other |
| Settings.RendererToNativeInjective | src/settings.rs:555-562 | distinct modes map to distinct engine modes; with the previous row, the mapping is a bijection |
| Tables.DefaultContent | src/table.rs:28-32 | the derived default content wraps the engine's default content |
| Native.GetWidth | src/table.rs:117-121 | the engine's `get_width`, as assumed here: a width exactly for text, the engine's measured text width, and none for the splitter or the empty content |
| Tables.ContentWidth | src/table.rs:176-180 | the width `native_with_content` takes from a content: present exactly for text, absent for `Content.Empty` and `Content.Splitter` (the engine's `get_width` as assumed here) |
| Tables.NewContent | src/table.rs:43-46 | a text content holds the given string and has an intrinsic width |
| Tables.DefaultCell | src/table.rs:78-95 | the derived default cell has the default content, the default overflow and the default alignment, no width, no merge, no formatters and empty padding |
| Tables.WithContent | src/table.rs:117-121 | the cell gets the new content and a width re-derived from it, replacing any earlier width; no other field changes |
| Tables.NewCell | src/table.rs:99-102 | `Cell(c)` has content `c` and its width; all other fields are the default cell's |
| Tables.WithOverflow | src/table.rs:122-125 | only the overflow changes; `native_with_overflow` and `native_set_overflow` behave the same |
| Tables.WithWidth | src/table.rs:126-129 | only the width changes |
| Tables.WithAlign | src/table.rs:130-133 | only the alignment changes |
| Tables.WithPadding | src/table.rs:134-137 | only the padding changes |
| Tables.WithMerge | src/table.rs:138-141 | only the merge changes; any span, including 0, is accepted |
| Tables.WithFormatter | src/table.rs:142-145 | the formatter chain is replaced, and nothing else changes |
| Tables.AppendFormatter | src/table.rs:146-162 | the new chain is the old chain followed by the given formatters in order; nothing else changes |
| Tables.NativeAppendFormatter | src/table.rs:205-211 | `native_append_formatter` and `native_with_appended_formatter` extend the chain as above and leave the vector passed in empty |
| Tables.WithSpan | src/table.rs:167-172 | the result has `span + 1` cells. The first is the receiver with `merge == Some(span)`, its width cleared and every other field kept. The other `span` cells are default cells |
| Tables.NewTable | src/table.rs:370-375 | the rows are kept as given and there is no border |
| Tables.SplitterCell | src/table.rs:348-352 | a splitter-row cell has splitter content, no width and chain `[Bold]`, and is otherwise the default cell |
| Tables.NativeCreate | src/table.rs:344-368 | with a splitter: `2 + body` rows. Row 0 is the header with each chain replaced by `[Bold]`. Row 1 has one bold splitter cell per header cell. The body follows unchanged. Without a splitter: the header untouched, then the body. No border either way |
| Tables.WithBorder | src/table.rs:268-271 | the border is replaced wholesale and the rows are untouched |
| Tables.OverwriteOverflow | src/table.rs:285-291 | every cell of every row gets the given overflow and keeps all other fields. Row count, row lengths, border and size are unchanged |
| Tables.TableSize | src/table.rs:258-264 | a table with no rows has size 0x0; otherwise the size is the first row's length by the row count |
| Tables.WithContentOverridesWidth | src/table.rs:117-121 | setting content after an explicit width gives the same cell as setting the content alone |
| Tables.AppendFormatterTwice | src/table.rs:153-162 | appending two lists in turn is the same as appending their concatenation |
| Tables.CreateWithoutSplitter | src/table.rs:360-375 | `create` without a splitter equals `Table::new` of the header row followed by the body |
| Tables.CreateSize | src/table.rs:344-368 | a created table's size is (header length) by (body rows + 2) with a splitter, or by (body rows + 1) without |
| Tables.CellToNative | src/table.rs:216-233 | the engine cell carries the same content, width, merge, alignment, overflow and padding, and one transform per formatter, in order, chosen by `as_func` |
| Tables.TableToNative | src/table.rs:377-385 | the engine table has the same shape, is converted cell by cell, and has the same border flags |
| Tables.Render | src/table.rs:274-282 | an engine error becomes a formatting failure carrying the engine's message. Output that is not valid UTF-8 becomes a separate encoding failure. Otherwise the result is the decoded text |
| Utils.AutoCell | tabler/utils.py:43-56 | `None` gives an empty-content cell, and a cell is returned unchanged. A content is put in a new cell. A string, or any other value's `str()`, gives a text cell. Apart from a given cell, the result is the default cell with only its content and derived width set |
| Utils.AutoTableFrom | tabler/utils.py:59-65 | the table has the same number of rows as the input, each row as long as its input row. Each cell is `auto_cell` of its value, and there is no border |
| Utils.AutoTableCreate | tabler/utils.py:68-80 | `Table.create` of the converted header and body has `|content| + 2` rows with a splitter and `|content| + 1` without. The header cells are `auto_cell`'d: bolded with a splitter, left as they are without. The body rows are `auto_cell`'d in order |
| Utils.TextRowsAreAutoRows | tabler/utils.py:9-18 | building `Cell(Content(s))` for every string gives the same rows as `auto_cell` on the strings |
| Utils.PlaintextTable | tabler/utils.py:9-18 | the table `from_plaintext` builds equals `auto_table_from` on the same strings |
| Utils.PlaintextCreatedTable | tabler/utils.py:27-40 | the table `create_from_plaintext` builds equals `auto_table_create` on the same strings and flag |
| Utils.FromPlaintext | tabler/utils.py:5-18 | as written, the caller receives `None` |
| Utils.CreateFromPlaintext | tabler/utils.py:21-40 | as written, the caller receives `None` |
| Utils.FromPlaintextReturning | tabler/utils.py:5-18 | the corrected helper returns `auto_table_from` of the strings |
| Utils.CreateFromPlaintextReturning | tabler/utils.py:21-40 | the corrected helper returns `auto_table_create` of the strings with the same flag |
| Utils.FromPlaintextDropsTable | tabler/utils.py:5-18 | for the input `[["a"]]`, a one-row table is built but `None` is returned, which differs from the corrected result |
| Utils.CreateFromPlaintextDropsTable | tabler/utils.py:21-40 | for header `["h"]`, no body and a splitter, a two-row table is built but `None` is returned |

## Left out

- Rendering itself is left out. That covers column widths, wrapping, border glyphs, byte
  output and Markdown's first-row alignment rule, all of which belong to the external
  `table_formatter` engine. `Render` takes the engine as a function parameter.
- Tables.Render: takes UTF-8 decoding (`String::from_utf8`) as a parameter rather than
  defining UTF-8. The engine's error is represented only by its displayed message.
- The text transforms are left out. `FormatFunc::run` and the `colored::Colorize` methods
  are foreign code, so a formatter is modelled only by the method or closure it selects.
- The engine's `get_width` for text, and the `Default` values of its content, alignment and
  overflow types, are uninterpreted constants. That crate is not part of this model.
- Native.GetWidth: the shape of the engine's `get_width` is an assumption, not taken from code
  shown here. Text is assumed to have a width, and the splitter and the empty content none.
  Only the text width's value is left open. The contracts of `Tables.ContentWidth`,
  `Tables.NewContent` (its width is present), `Tables.SplitterCell` (its width is absent) and
  `Utils.AutoCell` (no width for `None`'s empty cell, a width for a string) rest on this
  assumption.
- The PyO3 plumbing is left out: module and class registration, extraction of `PyList`
  arguments, and argument-type errors. This is why `append_formatter` and
  `with_appended_formatter` never fail in the model.
- The conversion of errors into Python exceptions (`FormatterError` into `ValueError`) is
  left out.
- Every `__repr__` string is left out, except the table size (`TableSize`) and the colour
  names `Color::repr` shows (`DisplayName`).
- `DisplayName` builds each bright name as "bright " followed by the base name. The resulting
  strings are identical to the source's literals.
- `usize` and `u8` are modelled as `nat` and a `0..255` newtype. No operation here does
  arithmetic on them, so wrap-around cannot arise.
- Python's `str()` of an arbitrary object is foreign code. `Utils.PyValue.Other` carries its
  result.
- The determinism of rendering (the same table and mode give the same output) holds by
  construction, because `Render` is a function of its inputs. It is not stated separately.
- Python object identity is not modelled. `auto_cell` returning the same cell object appears
  as returning an equal value.

## Findings

| source | as written | input that shows it | evidently intended | confidence | as-written member | corrected member |
|---|---|---|---|---|---|---|
| tabler/utils.py:5-18 | `from_plaintext` builds the table but has no `return`, so it yields `None` | `from_plaintext([["a"]])` | return the table, as the `-> Table` annotation and the docstring say | high; not executed | Utils.FromPlaintext (shown by Utils.FromPlaintextDropsTable) | Utils.FromPlaintextReturning |
| tabler/utils.py:21-40 | `create_from_plaintext` calls `Table.create` but has no `return`, so it yields `None` | `create_from_plaintext(["h"], [], True)` | return the created table, as the annotation and the docstring say | high; not executed | Utils.CreateFromPlaintext (shown by Utils.CreateFromPlaintextDropsTable) | Utils.CreateFromPlaintextReturning |
