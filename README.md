# Rustic-Print in Dafny

Rustic-Print is a Rust crate for styled terminal output. This project models
its core in Dafny and proves properties of the model:

- **Text blocks** (`render_block`, `print_padding_line`, `styled_print_line`)
  and the seven preset blocks: success, caution, error, comment, warning,
  info and note.
- **Underlined headers** (`title`, `section`) and **bullet listings**.
- **The decision logic of the three prompts**: `confirm`, `ask` and `choice`.
- **Table layout** (`Table::new`, `create_line`, `print_table`).
- **The ANSI colour codes** of `ConsoleColor`.
- **The `Messages` value and the default `BlockOptions`.**

**Output.** Standard output is the class `Terminal.Stdout`. It holds the
trace of commands queued so far: `Print`, `PrintStyled`, the colour
setters, `ResetColor` and `Flush`. Every printing method appends to that
trace, and its contract states the trace it appends.

**Specifications.** The block renderer is specified in two layers:

1. `Block.BlockLayout` lists the lines of a block, each a blank line, a
   padding line or a body line.
2. `Block.Emit` turns those lines into commands.

All the shape properties of a block are proved on these two functions. The
method `Block.RenderBlock` is then proved to emit exactly
`Block.BlockTrace`.

**Byte lengths.** The source measures text with `len()`, which counts the
UTF-8 bytes of a string. The model does the same with `Strings.Utf8Len`.
Dafny strings are sequences of characters, so this difference matters for
any non-ASCII text.

**Parameters.** Everything the crate takes from outside is a parameter:

- the terminal size: `None` when it cannot be read;
- whether the build targets Windows;
- the line wrapper of the `textwrap` crate: a function from text, width and
  the two indents to the wrapped lines;
- the keys pressed, for `confirm` and `choice`;
- the lines read, for `ask`;
- the validator of `ask`;
- the crate constant `CLEAR_COLOR` that table lines end with.

The prompts are modelled as state machines over a finite sequence of keys
or lines. A method runs the loop, and a function states the outcome the
method is proved to compute.

## Model

| member | source | states |
|---|---|---|
| Strings.SaturatingSub | src/lib.rs:1071 | `usize::saturating_sub`: the difference when `a >= b`, else 0 |
| Strings.Utf8Width | src/lib.rs:1071 | a character takes 1 to 4 bytes, and exactly 1 iff it is ASCII |
| Strings.Utf8LenAppend | src/lib.rs:245-249 | the byte length of a concatenation is the sum of the byte lengths |
| Strings.Utf8LenAscii | src/lib.rs:245-249 | the byte length of an ASCII string is its character count |
| Strings.Utf8LenAtLeastLength | src/lib.rs:311 | a string takes at least one and at most four bytes per character |
| Strings.PadRight | src/lib.rs:1071-1072 | the text followed by spaces, exactly `max(w, len(text))` bytes long; it never truncates |
| Strings.LeadingWhitespaceSpec | src/lib.rs:766 | the leading run counted is whitespace, and the character after it, if any, is not |
| Strings.TrailingWhitespaceSpec | src/lib.rs:766 | the trailing run counted is whitespace, and the character before it, if any, is not |
| Strings.TrimStart | src/lib.rs:766 | what is left is a suffix of the string |
| Strings.TrimStartSpec | src/lib.rs:766 | drops exactly the leading whitespace: every character removed is whitespace, and what is left does not start with whitespace |
| Strings.TrimEnd | src/lib.rs:766 | what is left is a prefix of the string |
| Strings.TrimEndSpec | src/lib.rs:766 | drops exactly the trailing whitespace: every character removed is whitespace, and what is left does not end with whitespace |
| Strings.TrimEmptyIff | src/lib.rs:722 | `trim()` is empty iff every character is whitespace |
| Strings.TrimIdempotent | src/lib.rs:766 | trimming twice changes nothing; a trimmed string neither starts nor ends with whitespace |
| Strings.TrimSlice | src/lib.rs:766 | `trim()` is the contiguous slice between the leading and the trailing whitespace |
| Strings.AsciiLower | src/lib.rs:724-725 | lowercases exactly the ASCII capitals, position by position |
| Strings.JoinUtf8Len | src/table.rs:34-40 | joining `n` parts costs the parts' byte lengths plus `n - 1` separators |
| Strings.Decimal | src/lib.rs:893 | the decimal spelling of a number is a non-empty digit string, one digit long iff the number is below 10 |
| Strings.DigitsValueOfDecimal | src/lib.rs:893 | reading a number's decimal spelling back gives the number |
| Strings.ParseUsize | src/lib.rs:893 | `parse::<usize>()` accepts an optional `+` and digits up to `usize::MAX`, and rejects "" and "+" |
| Strings.ParseDecimal | src/lib.rs:963 | every index up to `usize::MAX` parses back from its decimal spelling |
| Optional.Option.GetOr | src/lib.rs:770 | `unwrap_or`: the value if present, else the default |
| ConsoleColors.Ordinal | src/console_color.rs:1-18 | the 16 colours are numbered below 16 in declaration order |
| ConsoleColors.FromOrdinal | src/console_color.rs:1-18 | the colour with a given declaration index |
| ConsoleColors.OrdinalRoundTrip | src/console_color.rs:1-18 | numbering a colour and looking the number up gives the colour back |
| ConsoleColors.SgrParameter | src/console_color.rs:23-59 | reads the parameter of a string of the form ESC `[` digits `m`, and only of such a string |
| ConsoleColors.SgrRoundTrip | src/console_color.rs:23-59 | every SGR sequence built from a parameter has that form and reads back to the parameter |
| ConsoleColors.SgrDigits | src/console_color.rs:23-59 | the characters of the escape sequence for the two- and three-digit parameters the codes use |
| ConsoleColors.FgCode | src/console_color.rs:21-40 | `to_fg_ansi_code` is the SGR sequence of the colour's foreground parameter |
| ConsoleColors.BgCode | src/console_color.rs:42-61 | `to_bg_ansi_code` is the SGR sequence of the colour's background parameter |
| ConsoleColors.FgCodesInDeclarationOrder | src/console_color.rs:23-38 | the eight base colours get ESC[30m to ESC[37m and the eight bright ones ESC[90m to ESC[97m, in declaration order |
| ConsoleColors.BgParameterIsFgPlusTen | src/console_color.rs:21-60 | every colour's background parameter is its foreground parameter plus 10 |
| ConsoleColors.CodesAreSgrSequences | src/console_color.rs:23-59 | every code has the form ESC `[` digits `m` |
| ConsoleColors.FgCodeInjective | src/console_color.rs:21-40 | distinct colours have distinct foreground codes |
| ConsoleColors.BgCodeInjective | src/console_color.rs:42-61 | distinct colours have distinct background codes |
| ConsoleColors.FgAndBgCodesDisjoint | src/console_color.rs:21-61 | no foreground code equals any background code |
| BlockOptions.DefaultBlockOptions | src/block_options.rs:22-29 | the default has no label, no style, the empty prefix and no padding |
| Messages.FromString | src/messages.rs:12-15 | a `String` becomes `Single` holding the same text |
| Messages.FromStr | src/messages.rs:23-26 | a `&str` becomes `Single` holding the same text |
| Messages.FromStrings | src/messages.rs:34-37 | a vector of strings becomes `Multiple` holding the same sequence, the empty one included |
| Messages.ToOwned | src/messages.rs:47 | the owned copies have the same length and order and are equal element by element |
| Messages.FromStrs | src/messages.rs:45-48 | a vector of `&str` becomes `Multiple` holding the same sequence |
| Messages.Paragraphs | src/lib.rs:252-255 | `Single(s)` renders as the one paragraph `s`, and `Multiple(v)` as the paragraphs `v` |
| Messages.ParagraphsRoundTrip | src/lib.rs:252-255 | every conversion renders exactly the texts it was given |
| Terminal.Stdout.Queue | src/lib.rs:225 | `queue!` appends one command to the trace and changes nothing else |
| Terminal.Stdout.QueueAll | src/lib.rs:326-334 | one `queue!` of several commands appends them in order |
| Terminal.ResetAfterStyledFlatten | src/lib.rs:1038-1043 | if every group of commands has a reset after each styled print, so does their concatenation |
| Block.WrapWidth | src/lib.rs:218-222 | `min(term_width, 120)`, with 120 when the size is unknown, then one less on Windows, saturating at 0; never above 120 or the terminal width |
| Block.EffectivePrefix | src/lib.rs:228-231 | the prefix is never empty: "" becomes " ", any other prefix stays |
| Block.Label | src/lib.rs:239 | the label is `block_type`, verbatim, or "" when there is none |
| Block.InitialIndent | src/lib.rs:240-244 | the prefix, then `[label] ` when the label is non-empty; the prefix alone otherwise |
| Block.SubsequentIndent | src/lib.rs:245-249 | the prefix followed only by spaces, as many bytes long as the longer of the initial indent and the prefix |
| Block.IndentsAlign | src/lib.rs:239-249 | the subsequent indent is exactly as many bytes long as the initial indent |
| Block.LabelOnlyInFirstParagraph | src/lib.rs:262-271 | paragraphs after the first use the subsequent indent on every line: the prefix and spaces, with no label |
| Block.PaddingText | src/lib.rs:1021-1025 | the padding text is the prefix filled with spaces to `max(w, len(prefix))` bytes |
| Block.PaddingLineShape | src/lib.rs:1021-1047 | a padding line ends in "\r\n", is `max(w, len(prefix))` bytes, resets the colour iff the block is styled, and resets after its styled print |
| Block.BodyLineShape | src/lib.rs:1071-1081 | a body line starts with the wrapped line, is `max(w, len(line))` bytes, then always a reset and "\n" |
| Block.Bodies | src/lib.rs:274-276 | each wrapped line becomes one body line, in order |
| Block.EmitAppend | src/lib.rs:257-277 | the commands of consecutive line groups are the concatenation of their commands |
| Block.PrintPaddingLine | src/lib.rs:1015-1048 | `print_padding_line` queues exactly the padding-line commands |
| Block.StyledPrintLine | src/lib.rs:1065-1083 | `styled_print_line` queues exactly the body-line commands |
| Block.PrintBodyLines | src/lib.rs:274-276 | printing a paragraph's wrapped lines queues the commands of their body lines |
| Block.RenderOpening | src/lib.rs:224-236 | a block opens with a blank line, then a padding line iff padding is on |
| Block.PrintParagraphs | src/lib.rs:257-277 | the paragraph loop queues the paragraphs' layout: a separating padding line before every paragraph but the first, then its wrapped lines |
| Block.RenderClosing | src/lib.rs:279-285 | a block closes with a padding line iff padding is on, then "\n" and a flush |
| Block.RenderBlockAtWidth | src/lib.rs:224-286 | at a given width, `render_block` queues exactly the block's trace |
| Block.RenderBlock | src/lib.rs:210-287 | `render_block` queues exactly the trace of the block's layout at the computed wrap width; `block` does the same |
| BlockProperties.BodiesHaveNoPadding | src/lib.rs:274-276 | wrapped text never contributes a padding line |
| BlockProperties.ParagraphPadding | src/lib.rs:258-260 | paragraph `i` brings one padding line when `i > 0` and none otherwise |
| BlockProperties.ParagraphsPadding | src/lib.rs:257-277 | `n` paragraphs are separated by exactly `n - 1` padding lines |
| BlockProperties.BlockPaddingCount | src/lib.rs:233-285 | a block of `n` paragraphs has `2·[padding] + (n - 1)` padding lines |
| BlockProperties.BlockLayoutEnds | src/lib.rs:224-285 | a block starts and ends with a blank line, has a padding line second and second-to-last iff padding is on, and is two blank lines when it has no paragraphs and no padding |
| BlockProperties.LineResets | src/lib.rs:1038-1043 | every line's commands put a colour reset right after each styled print |
| BlockProperties.EmitResets | src/lib.rs:1081 | so does the whole sequence of a block's lines |
| BlockProperties.BlockTraceShape | src/lib.rs:224-285 | a block's trace starts with "\n", ends with "\n" and a flush, and resets the colour after every styled print |
| BlockProperties.DefaultBlock | src/block_options.rs:22-29 | a default block has " " as prefix and both indents, no colours, unstyled padding lines, and padding lines only between paragraphs |
| Presets.PresetIndents | src/lib.rs:408-602 | each preset's first-line indent is as drawn: " [OK] ", " ! [CAUTION] ", " [ERROR] ", " // ", " [WARNING] ", " [INFO] ", " ! [NOTE] "; every other line has the prefix and spaces, just as long |
| Presets.PresetDefaults | src/lib.rs:408-602 | success, warning and info keep the "" prefix, drawn as " "; comment is the default block with the prefix " // " |
| Presets.PresetPadding | src/lib.rs:408-602 | every preset but comment and note has padding on |
| Presets.PresetLabels | src/lib.rs:408-602 | every preset but comment has a label and a style, and no two presets share a label |
| Presets.RenderPreset | src/lib.rs:408-602 | each preset queues the block trace of its constant options |
| Headers.Underline | src/lib.rs:311 | the underline character repeated once per byte of the message |
| Headers.UnderlineMatchesMessage | src/lib.rs:311 | with an ASCII underline character, the underline is exactly as many bytes long as the message |
| Headers.UnderlineTraceShape | src/lib.rs:313-337 | the colour settings the style names, foreground first; the styled message, a reset and "\n"; the same for the underline; then "\n" and a flush |
| Headers.QueueStyle | src/lib.rs:313-324 | queues the foreground and then the background the style names, and returns both colours |
| Headers.RenderUnderlineWithChar | src/lib.rs:302-340 | `render_underline_with_char` queues exactly the header's trace |
| Headers.Title | src/lib.rs:368-377 | `title` underlines with '=' in dark green |
| Headers.Section | src/lib.rs:386-395 | `section` underlines with '-' in dark green |
| Headers.HeaderLines | src/lib.rs:368-395 | a title or a section sets the dark-green foreground only, and its underline is the header character, as many bytes long as the message |
| Listing.ItemLineRoundTrip | src/lib.rs:619 | an item line is "* ", the item and "\n", and the item can be read back from it |
| Listing.ListingShowsItems | src/lib.rs:618-622 | a listing prints the items in order, one line each, and then flushes |
| Listing.PrintListing | src/lib.rs:613-623 | `listing` queues exactly the listing's trace |
| Keys.Typed | src/lib.rs:699-701 | typing a word presses one plain character key per character, in order |
| Confirm.ConfirmStep | src/lib.rs:699-713 | a character is appended; Backspace drops the last character of a non-empty buffer; every other key leaves the buffer unchanged |
| Confirm.ConfirmDecisionIff | src/lib.rs:722-730 | the answer is yes iff the trimmed input is "yes" or "y", ignoring ASCII case, or the input is blank and the default is yes |
| Confirm.BackspaceUndoesChar | src/lib.rs:699-712 | Backspace undoes the character just typed |
| Confirm.TypedThenEnter | src/lib.rs:696-717 | typing a word and pressing Enter decides on the buffer extended by the word; keys after Enter are not read |
| Confirm.ConfirmBlankTakesDefault | src/lib.rs:722-723 | an empty or blank input takes the default |
| Confirm.Decide | src/lib.rs:722-730 | the value `confirm` returns once Enter is read is the decision on the buffer |
| Confirm.ConfirmKeys | src/lib.rs:694-730 | the key loop of `confirm` returns the decision for the keys up to the first Enter, or nothing if no Enter comes |
| Ask.AskBlankTakesDefault | src/lib.rs:766-770 | a blank line takes the default, or the empty string when there is none |
| Ask.AskAnswerIsTrimmedLine | src/lib.rs:766-773 | a line with a non-blank character gives that line minus its leading and trailing whitespace |
| Ask.AskAnswerIdempotent | src/lib.rs:766-773 | asking again with the answer as the line gives the same answer |
| Ask.AskOutcomeAccepted | src/lib.rs:760-786 | what `ask` returns is accepted by the validator and is the answer of one of the lines |
| Ask.AskWithoutValidator | src/lib.rs:783-785 | without a validator the first line decides |
| Ask.AskStep | src/lib.rs:764-785 | one round: the answer is returned, or it is rejected with its message and the next line is read |
| Ask.RejectionsAreVerdicts | src/lib.rs:776-782 | message `k` is the validator's rejection of line `k`'s answer, and there is at most one message per line |
| Ask.AcceptedAfterRejections | src/lib.rs:760-786 | the returned answer is that of the line right after the rejected ones |
| Ask.AskRound | src/lib.rs:764-785 | one round: the answer is the trimmed line, or the default when it is blank; it is accepted exactly when there is no validator or the validator accepts it, and a rejection carries the validator's message |
| Ask.RejectionsLength | src/lib.rs:776-782 | at most one message is printed per line read |
| Ask.RejectionAt | src/lib.rs:776-782 | message `k` is the validator's verdict on the answer to line `k` |
| Ask.AskLines | src/lib.rs:760-786 | the loop of `ask` returns the first accepted answer and prints the messages of the answers rejected before it |
| Choice.FirstIndex | src/lib.rs:899-904 | the first index whose choice meets the criterion, or none when no choice does |
| Choice.FindFirst | src/lib.rs:970-976 | the search loop finds that first index |
| Choice.InitialSelection | src/lib.rs:849-852 | the first position of the default (of "" when there is none) among the choices, else 0; always in range |
| Choice.ChoiceStep | src/lib.rs:866-909 | every key keeps the selection within the choices |
| Choice.ApplyKey | src/lib.rs:866-909 | the key handler updates the buffer and the selection as the per-key step says |
| Choice.MoveUp | src/lib.rs:872-879 | Up moves to the previous choice, from the first to the last, and Down from there comes back |
| Choice.MoveDown | src/lib.rs:880-883 | Down moves to the next choice, and from the last to the first |
| Choice.UpDownInverse | src/lib.rs:872-883 | Up then Down, or Down then Up, returns to the same selection |
| Choice.SelectionWraps | src/lib.rs:872-883 | Up from the first choice selects the last, and Down from the last selects the first |
| Choice.FinalChoiceCases | src/lib.rs:961-978 | Enter resolves an empty buffer to the selected choice, an index to that choice ("" out of range), and other text to a choice equal to it ignoring case ("" if none); any non-empty result is one of the choices |
| Choice.RestartsIffEmpty | src/lib.rs:981-994 | a round restarts exactly when Enter resolves to "": the guard on the selected index never fires |
| Choice.ChoiceKeys | src/lib.rs:825-996 | the prompt loop returns the outcome of the keys pressed: a choice, an exit on Ctrl-C, or still waiting |
| Choice.EnterTakesDefault | src/lib.rs:849-867 | pressing Enter at once chooses the default when it is a non-empty choice |
| Choice.TypeText | src/lib.rs:884-905 | typing keeps the selection in range and appends the text to the buffer |
| Choice.TypedKeys | src/lib.rs:884-905 | typing a word as keys is the same as appending the word |
| Choice.EnterStep | src/lib.rs:961-995 | Enter restarts the round or returns the resolved choice |
| Choice.TypedThenEnter | src/lib.rs:862-995 | typing a word and pressing Enter resolves the buffer that holds the word |
| Choice.TypedIndexSelects | src/lib.rs:963-965 | typing an index in range and pressing Enter chooses that choice |
| Choice.TypedNameSelects | src/lib.rs:969-977 | typing the name of a choice, ignoring case, and pressing Enter chooses a choice equal to it ignoring case |
| Choice.TypedUnknownRestarts | src/lib.rs:969-992 | typing a word that is neither an index nor a choice restarts the round |
| Choice.TabOnNumericChoice | src/lib.rs:869-871 | Tab then Enter on a choice that spells a number past the last index restarts the round |
| Tables.ColumnWidth | src/table.rs:14-25 | a column is at least as wide as its header and each of its cells |
| Tables.ColumnWidthAttained | src/table.rs:14-25 | the width is the length of the header or of one of the cells |
| Tables.ColumnWidthStep | src/table.rs:20-24 | measuring one more cell takes the maximum with its length |
| Tables.AsWrittenWidths | src/table.rs:12-25 | as written, there is one width per header: the widest of header `i` and the cells of row `i` |
| Tables.MeasureCells | src/table.rs:15-24 | one pass of the outer loop of `Table::new` sets the width of column `index` to the widest of the header and the cells it is given, and leaves every other width alone |
| Tables.NewTable | src/table.rs:11-32 | `Table::new` as written keeps the headers and rows and computes exactly those widths |
| Tables.ColumnMembers | src/table.rs:68-77 | column `i` holds exactly cell `i` of every row that has one |
| Tables.ColumnStep | src/table.rs:68-77 | one more row adds its cell `i` to column `i`, if it has one |
| Tables.CorrectedWidths | src/table.rs:14-25 | corrected: one width per header, the widest of header `i` and cell `i` of every row |
| Tables.MeasureColumn | src/table.rs:15-24 | the corrected pass sets the width of column `index` to the widest of the header and cell `index` of every row, and leaves every other width alone |
| Tables.NewTableCorrected | src/table.rs:11-32 | the corrected constructor computes exactly those widths |
| Tables.CorrectedWidthsFit | src/table.rs:14-25 | with the corrected widths every header and cell fits its column, and each width is attained |
| Tables.Runs | src/table.rs:34-38 | one run of the filler per column, two longer than its width, in column order |
| Tables.RunsLength | src/table.rs:34-38 | the runs of an ASCII filler add up to the widths plus two each |
| Tables.JoinOneByteSeparator | src/table.rs:39 | joining with a one-byte separator adds one byte between parts |
| Tables.CreateLineLength | src/table.rs:34-40 | a border is empty without columns, and otherwise `Σ(w + 2) + (n − 1)` bytes |
| Tables.CellWidths | src/table.rs:52-77 | a cell is `max(w, len(text)) + 2` bytes; a header cell is the row cell with the green code after its first space |
| Tables.RowLines | src/table.rs:68-83 | one row line per row, in order |
| Tables.TableLinesShape | src/table.rs:42-85 | a table is one line per row plus four: three identical borders, the header second, the rows in order |
| Tables.CorrectedColumnsAlign | src/table.rs:43-83 | with the corrected widths every cell of a column is exactly as wide as that column's border run |
| Tables.PrintLines | src/table.rs:44-85 | each line goes out as one print ending in "\n", in order |
| Tables.PrintRows | src/table.rs:68-83 | the row loop of `print_table` prints exactly the row lines, in order |
| Tables.PrintTable | src/table.rs:42-86 | `print_table` prints exactly the table's lines |
| Tables.PrintNewTable | src/lib.rs:662-665 | `table` builds the table with `Table::new` as written, whose widths are those of the defect below, and prints exactly its lines |
| Tables.PrintNewTableCorrected | src/lib.rs:662-665 | `table` with the corrected constructor prints exactly the lines of the table with the corrected widths |
| Tables.AsWrittenExampleWidths | src/table.rs:20 | as written, headers A, B and rows [1, 22], [333] get widths [2, 3] |
| Tables.CorrectedExampleWidths | src/table.rs:20 | corrected, the same table gets widths [3, 2] |
| Tables.AsWrittenWidthsMisalign | src/table.rs:20 | as written, cell "333" is printed 5 bytes wide under a border run of 4 |

## Left out

- `text()` (src/lib.rs:636-652) is not modelled. It only wraps text with the foreign `textwrap` crate. It also computes `term_width - 1` without saturation, which would underflow on a zero-width terminal.
- `textwrap::fill(..).lines()` is a function parameter; nothing is assumed about how it breaks lines.
- Terminal I/O is not modelled: reading the terminal size, raw mode, reading key events, the cursor position, and the prompt redraw with its highlighted suggestion (src/lib.rs:912-949). The terminal size is an `Option<nat>` parameter, not a `u16`. Keys and lines are explicit input sequences.
- The question and choice-list printing of the prompts is not modelled: `ask_question`, the `choice` header, and the `confirm` prompt line with its echoed characters. It is pure output with no effect on the answer.
- Errors from `queue!` and `flush`, and the `.expect` panics around them, are not modelled; every write succeeds. `block` is `Block.RenderBlock` with that panic left out.
- `std::process::exit` on Ctrl-C is the outcome `Choice.Exited`.
- Choice.ChoiceKeys: the error block printed before a restart (src/lib.rs:982-991) is not part of the outcome; a restart only resets the round. The unbounded loops of `confirm`, `ask` and `choice` run over finite inputs, ending in "no answer yet" (`None`, `Waiting`) when the input runs out, so their termination is not modelled.
- Choice.ChoiceStep: requires at least one choice. With none, `choice` panics: Up underflows, Down divides by zero, and the default display indexes an empty slice.
- Choice.FirstIndex and Confirm.ConfirmDecisionIff: both compare through ASCII lowercasing. For `confirm` this is exact, since `eq_ignore_ascii_case` (src/lib.rs:724-725) folds only A–Z; for `choice`, `to_lowercase` is modelled as ASCII lowercasing, so Unicode case mappings beyond A–Z are not captured.
- Tables.NewTable: requires at least as many rows as headers, because `Table::new` as written indexes `rows[i]` for every header and panics otherwise.
- Tables.PrintNewTable: requires as many rows as headers and no row longer than the headers, because `Table::new` and `print_table` panic otherwise; the model says nothing about those panics.
- Tables.PrintTable: requires that no row has more cells than there are widths, because `print_table` indexes `column_widths[i]` and panics otherwise.
- `CLEAR_COLOR`, which src/table.rs imports from the crate root, is defined nowhere in the crate: src/lib.rs declares no such constant. It is the `clear` parameter of the table printer.
- The colours of the terminal library are names only (`StyleOptions.Color`); their escape codes are not modelled, and its `Rgb` and `AnsiValue` colours have no counterpart.
- `print_choices` (src/lib.rs:1088-1098) is never called and is not modelled.
- src/main.rs is a demo program and is not part of this model.
- `StyleOptions::default` is the value `StyleOptions.DefaultStyleOptions`; there is nothing to prove about it.
- Labels are used verbatim (src/lib.rs:241).

## Findings

| source | as written | input that shows it | evidently intended | confidence | as-written member | corrected member |
|---|---|---|---|---|---|---|
| src/table.rs:20 | the width of column `i` is taken from header `i` and the cells of row `i` | headers ["A", "B"], rows [["1", "22"], ["333"]]: widths [2, 3], so "333" is printed 5 bytes wide under a border run of 4; with fewer rows than headers `Table::new` panics | the width of column `i` is the widest of header `i` and cell `i` of every row (here [3, 2]), so every column lines up with its border | not executed | Tables.NewTable, Tables.AsWrittenWidthsMisalign | Tables.NewTableCorrected, Tables.CorrectedColumnsAlign, Tables.PrintNewTableCorrected |
