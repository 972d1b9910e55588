# gpio_layouter in Dafny

A model of the text-formatting core of `gpio_layouter.py`, a small renderer
that draws the pin map of a board header (a Raspberry Pi 40-pin connector,
say) as aligned, colour-coded text, with a legend that explains the symbol
colours. The model covers:

- the ANSI/VT100 colour tables `FG` and `BG`, and `Color.set`, which wraps a
  text fragment in an escape sequence (background code, then foreground
  code, then the text, then a reset);
- `Symbol.__str__`, the coloured symbol;
- `Legend`: its constructor, which puts a non-empty description in
  parentheses, and its one-line rendering;
- `StrWidths`, the column widths, with the defaults 2/3/8/13;
- `FGPIO`: its constructor (`str(pin)`, the same description wrapping, the
  default widths) and `__str__`, the fixed-width row. A right-column record
  shows symbol, pin, name and description, each left-justified. A
  left-column record shows the same fields in the mirrored order, each
  right-justified;
- `Map.print_legend` and `Map.print_map`, as functions that return the lines
  they would print.

Python's `str.ljust`, `str.rjust` and `str(int)` are modelled in `text.dfy`,
together with a decimal reader that serves as the inverse of `str(int)`.
`colors.dfy` holds the colour tables, `Color.set` and the symbol. It also
holds a reader for coloured fragments, `ParseColored`, against which
`Color.set` is proved. The reader accepts a code only as `str()` of an int
spells it, with no leading zero. `layout.dfy` holds the legend, the widths,
the pin records and the map. `wrappers.dfy` holds the `Option` type that stands for
Python's `None`.

The source file does not parse as it stands. The model follows what the
code evidently means:

- `self.w`, `self.legends`, `self.fgpios` and the `self.` fields of
  `Legend.__str__` are used where the source writes the bare names;
- `str(self.symbol)`, the coloured symbol, is the symbol field of a row;
- the widths are ints, not the one-element tuples that the trailing commas of
  `StrWidths.__init__` would build;
- `StrWidths()` is used where the source calls `str_widths()`;
- the stray `-> str` / `-> None`, the `}` and the missing `:` after `else`
  are ignored.

`description is not ''` compares identity. CPython keeps a single empty
string, so it is modelled as `description != ""`.

`print_map` prints one line per record. The left and right records of a
physical header row are not joined into one line, and `FGPIO` has no
pull-state field.

## Model

| member | source | states |
|---|---|---|
| Colors.FgCode | gpio_layouter.py:15-31 | every foreground code lies in 30-37 (normal) or 90-97 (bright) |
| Colors.BgCode | gpio_layouter.py:36-52 | every background code lies in 40-47 (normal) or 100-107 (bright) |
| Colors.BackgroundIsForegroundPlusTen | gpio_layouter.py:15-52 | each background code is the code of the foreground colour of the same name plus 10 |
| Colors.CodesAreDistinct | gpio_layouter.py:15-52 | within each table, equal codes mean the same colour (the enums are injective) |
| Colors.Colorize | gpio_layouter.py:56-64 | `Color.set(s)` starts with the literal `\033[` and ends with the literal reset `\033[0m`; the reset is preceded by `s` unchanged, which is preceded by `m`; the two codes, `;` and `m` take at least four characters |
| Colors.LeadingZeroRefused | gpio_layouter.py:60-64 | the reader of coloured fragments refuses a code spelled with a leading zero (`041`), so it accepts only the spellings that `str()` of a code produces |
| Colors.ColorizeRoundTrip | gpio_layouter.py:60-64 | reading the result of `Color.set(s)` back gives the background number first, the foreground number second (0 for a colour left at its default) and the text `s` unchanged |
| Colors.BgTextAsWritten | gpio_layouter.py:63-64 | as written, a background left at the default formats as `0` and a named one as its enum name, which starts with `BG.` |
| Colors.FgTextAsWritten | gpio_layouter.py:63-64 | as written, a foreground left at the default formats as `0` and a named one as its enum name, which starts with `FG.` |
| Colors.ColorizeAsWritten | gpio_layouter.py:63-64 | as written, a named background formats as its enum name (`BG.red`), so the character after the opener is `B`; with the default background the opener is followed by `0;` and, for a named foreground, by `F` |
| Colors.AsWrittenIsNotSgr | gpio_layouter.py:15-64 | with a named background or a named foreground, the as-written output is not a well-formed `<digits>;<digits>m` sequence (codes without leading zeros), while the intended one always is |
| Colors.SymbolText | gpio_layouter.py:68-74 | `Symbol.__str__` starts with the escape opener, carries the ASCII symbol unchanged just before the reset, and is at least 15 characters longer than the symbol |
| Colors.SymbolReadsBack | gpio_layouter.py:68-74 | a coloured symbol reads back as its colour's background and foreground numbers and its ASCII text |
| Text.Ljust | gpio_layouter.py:114-117 | `x.ljust(w)` has length max(len(x), w), starts with `x` (never truncates) and pads with spaces only |
| Text.Rjust | gpio_layouter.py:120-123 | `x.rjust(w)` has length max(len(x), w), ends with `x` (never truncates) and pads with spaces only |
| Text.JustifyMirror | gpio_layouter.py:111-123 | `ljust` and `rjust` of the same field to the same width add the same run of spaces, after and before the field |
| Text.JustifyWideField | gpio_layouter.py:111-123 | a field at least as long as its width is left unchanged by both |
| Text.NatToDecimal | gpio_layouter.py:105 | `str(n)` of a non-negative int is one or more digits, with no leading zero unless n is 0 |
| Text.IntToDecimal | gpio_layouter.py:105 | `str(n)` starts with `-` exactly when n is negative, is otherwise digits only, and has no leading zero unless n is 0 |
| Text.NatDecimalRoundTrip | gpio_layouter.py:105 | reading back the decimal spelling of a non-negative int gives that int |
| Text.IntDecimalRoundTrip | gpio_layouter.py:105 | `int(str(n)) == n` for every int, negative ones included |
| Text.IntDecimalInjective | gpio_layouter.py:105 | distinct pin numbers get distinct pin strings |
| Layout.WrapDescription | gpio_layouter.py:85 | the stored description is empty exactly when the given one is; otherwise it is the given one between `(` and `)` |
| Layout.DescriptionRoundTrip | gpio_layouter.py:107 | removing the parentheses from the stored description gives back the description passed in |
| Layout.NewLegend | gpio_layouter.py:82-85 | a legend keeps its symbol and name; it stores a non-empty description `d` as `(d)` and an empty one as empty |
| Layout.LegendText | gpio_layouter.py:87-88 | a legend line is the coloured symbol, a space, the name, a space and the stored description, in that order (each part and both spaces are stated) |
| Layout.WidthsOrDefault | gpio_layouter.py:92-97 | with no widths given, a record uses symbol 2, pin 3, name 8 and description 13; otherwise it uses the widths given |
| Layout.PinString | gpio_layouter.py:105 | a string pin is kept as it is; an int pin becomes its decimal spelling `str(n)` (no leading zero), which reads back as that int |
| Layout.NewFgpio | gpio_layouter.py:102-109 | a record keeps symbol, name and side, stores `str(pin)`, stores a non-empty description `d` as `(d)` and an empty one as empty, and uses the default widths when none are given |
| Layout.Cell | gpio_layouter.py:114-123 | a field is padded to max(length, width): on the right when the record is in the right column, on the left otherwise, with spaces only |
| Layout.Row | gpio_layouter.py:111-123 | `FGPIO.__str__` is as wide as its four padded fields plus three gutters; a right-column row starts with the coloured symbol, a left-column row ends with it |
| Layout.RowWith | gpio_layouter.py:113-123 | the same facts for a row whose rendered symbol is any string: padded widths add up, and the symbol opens a right-column row and closes a left-column one |
| Layout.JoinFields | gpio_layouter.py:114-123 | four fields joined by the gutter: the length adds up, the first field opens the line and the last closes it |
| Layout.JoinFieldsMiddle | gpio_layouter.py:114-123 | between the first and last fields stand, in order, a gutter, the second field, a gutter, the third field and a gutter, each at its computed position |
| Layout.FieldsShown | gpio_layouter.py:112-123 | a right-column row shows symbol, pin, name, description in that order; a left-column row shows description, name, pin, symbol |
| Layout.WidthsShown | gpio_layouter.py:114-123 | the widths follow the fields: symbol, pin, name, description widths on the right; description, name, pin, symbol widths on the left |
| Layout.RowIsCells | gpio_layouter.py:111-123 | `FGPIO.__str__` is the four fields in column order, each padded for its column to its width, with the gutter between them |
| Layout.LeftMirrorsRight | gpio_layouter.py:112-123 | the left-column order of fields and widths is exactly the right-column order reversed |
| Layout.LeftRightSamePadding | gpio_layouter.py:114-123 | field by field, the left and right renderings of a record hold the same field and the same padding, only on opposite sides |
| Layout.DefaultSymbolUnpadded | gpio_layouter.py:93-123 | with the default widths the coloured symbol is longer than its column and is never padded |
| Layout.EmptyDescriptionIsBlank | gpio_layouter.py:107-123 | a record made with an empty description has spaces only in its description column, so no parenthesis pair |
| Layout.LeftRowExample | gpio_layouter.py:118-123 | pin 1, `3v3`, `Power`, left column, default widths: `(Power)` right-justified to 13, then `3v3` to 8, `1` to 3, then the coloured symbol, joined by the gutter |
| Layout.LegendLines | gpio_layouter.py:132-137 | with no legends the single line `No legend available`; otherwise one line per legend entry, in order (none for an empty list) |
| Layout.Each | gpio_layouter.py:136-141 | a `for … print` loop prints one line per element, the i-th line being the i-th element rendered |
| Layout.LegendTexts | gpio_layouter.py:136-137 | one rendered line per legend entry, in the order given |
| Layout.MapLines | gpio_layouter.py:139-141 | `print_map` prints one row per record, in input order |
| Layout.Rows | gpio_layouter.py:140-141 | the i-th line is the row of the i-th record |
| Layout.RowsAppend | gpio_layouter.py:139-141 | the rows of two record lists printed one after the other are the rows of their concatenation |

## Findings

| source | as written | input that shows it | evidently intended | confidence | as-written member | corrected member |
|---|---|---|---|---|---|---|
| gpio_layouter.py:60-64 | `'\\033[{0};{1}m{2}\\033[0m'.format(self.bg, self.fg, s)` formats `FG` / `BG` members. They are plain `Enum`s, whose `format()` is their `str()`, such as `BG.red` | `Color(fg=FG.white, bg=BG.red).set('*')` gives `\033[BG.red;FG.whitem*\033[0m` | the numeric codes: `\033[41;37m*\033[0m` | high (not executed) | Colors.ColorizeAsWritten | Colors.Colorize |

`Colors.AsWrittenIsNotSgr` proves that, as written, no colour with a named
background or a named foreground yields a well-formed escape sequence. `Colors.ColorizeRoundTrip` proves that the
corrected `Colors.Colorize` always yields one, carrying the background and
foreground codes in that order. The rest of the model uses `Colors.Colorize`.

## Left out

- Printing to standard output: `print_legend` and `print_map` are modelled by the lines they return.
- `FG.no_color` has no value in the source, so it is not a variant. A colour left at the constructor's default `0` is modelled as `None`.
- Colour attributes other than table members or the default `0`: Python would accept any value there.
- A custom `escape_seq` template: it is a general `str.format` template, and only the default template is modelled.
- `Symbol.change_color` is an empty stub with no behaviour.
- The `__main__` block holds only comments, and `pio.py` holds only comments and an import.
- `show_err` of `print_legend` is not used by the source, and the model ignores it.
- How the terminal displays escape sequences: widths count characters, as `ljust`/`rjust` do. The coloured symbol is therefore wider than its default column of 2 and is never padded.
- The gutter between fields is one space plus the 20 spaces of indentation that the f-string's line continuations keep. It is the named constant `Layout.Gutter`, and the lemmas only rely on it standing between fields.
