/**
 * The block renderer: wraps each paragraph of a message, indents the first
 * line with the prefix and the bracketed label, pads every line with spaces
 * to the wrap width, colours it, resets the colour and streams the lines to
 * standard output between two blank lines.
 *
 * The line breaking itself is `wrap`, a parameter standing for
 * `textwrap::fill(text, options).lines()`: given a text, a width, the indent
 * of the first line and the indent of the others, it yields the lines.
 */
module Block {
  import opened Optional
  import opened Strings
  import opened StyleOptions
  import opened BlockOptions
  import opened Messages
  import opened Terminal

  type WrapFn = (string, nat, string, string) -> seq<string>

  /** Widest wrap width, and the width assumed when the terminal size is unknown. */
  const MAX_WRAP_WIDTH: nat := 120

  // ---------------------------------------------------------------------
  // Per-call values

  /**
   * The wrap width: the terminal width capped at 120 (120 when the size is
   * unavailable), one column less on Windows, never below zero.
   */
  function WrapWidth(termWidth: Option<nat>, windows: bool): (w: nat)
    ensures w <= MAX_WRAP_WIDTH
    ensures termWidth.Some? ==> w <= termWidth.value
    ensures !windows ==> w == Min(termWidth.GetOr(MAX_WRAP_WIDTH), MAX_WRAP_WIDTH)
    ensures windows ==> w == Max(Min(termWidth.GetOr(MAX_WRAP_WIDTH), MAX_WRAP_WIDTH) - 1, 0)
  {
    var t := termWidth.GetOr(MAX_WRAP_WIDTH);
    var capped := if t > MAX_WRAP_WIDTH then MAX_WRAP_WIDTH else t;
    if windows then SaturatingSub(capped, 1) else capped
  }

  /** The prefix actually drawn: an empty prefix becomes one space. */
  function EffectivePrefix(prefix: string): (p: string)
    ensures p != []
    ensures prefix != [] ==> p == prefix
    ensures prefix == [] ==> p == " "
  {
    if prefix == [] then " " else prefix
  }

  /** `block_type.unwrap_or_default()`: the label, used verbatim. */
  function Label(o: BlockOptions): (l: string)
    ensures o.blockType.Some? ==> l == o.blockType.value
    ensures o.blockType.None? ==> l == ""
  {
    o.blockType.GetOr("")
  }

  /** The indent of the first line of the first paragraph: the prefix, then `[label] ` if there is a label. */
  function InitialIndent(prefix: string, blockType: string): (r: string)
    ensures |prefix| <= |r| && r[..|prefix|] == prefix
    ensures blockType == "" ==> r == prefix
    ensures blockType != "" ==>
      |r| == |prefix| + |blockType| + 3 && r[|prefix|] == '['
      && r[|prefix| + 1..|r| - 2] == blockType && r[|r| - 2..] == "] "
  {
    if blockType != "" then prefix + "[" + blockType + "] " else prefix
  }

  /** The indent of every other line: the prefix, then spaces up to the byte length of `initial`. */
  function SubsequentIndent(prefix: string, initial: string): (r: string)
    ensures |prefix| <= |r| && r[..|prefix|] == prefix
    ensures forall i :: |prefix| <= i < |r| ==> r[i] == ' '
    ensures Utf8Len(r) == Max(Utf8Len(initial), Utf8Len(prefix))
  {
    var r := prefix + Spaces(SaturatingSub(Utf8Len(initial), Utf8Len(prefix)));
    Utf8LenAppend(prefix, Spaces(SaturatingSub(Utf8Len(initial), Utf8Len(prefix))));
    r
  }

  /** Everything a rendering computes once, before it emits the paragraphs. */
  datatype RenderContext = RenderContext(
    options: BlockOptions,
    wrapWidth: nat,
    prefix: string,
    initialIndent: string,
    subsequentIndent: string)

  function Context(o: BlockOptions, wrapWidth: nat): RenderContext
  {
    var prefix := EffectivePrefix(o.prefix);
    var initial := InitialIndent(prefix, Label(o));
    RenderContext(o, wrapWidth, prefix, initial, SubsequentIndent(prefix, initial))
  }

  /** The subsequent indent is exactly as many bytes long as the initial indent. */
  lemma {:induction false} IndentsAlign(prefix: string, blockType: string)
    ensures Utf8Len(SubsequentIndent(prefix, InitialIndent(prefix, blockType)))
         == Utf8Len(InitialIndent(prefix, blockType))
  {
    var init := InitialIndent(prefix, blockType);
    if blockType != "" {
      assert init == prefix + ("[" + blockType + "] ");
      Utf8LenAppend(prefix, "[" + blockType + "] ");
    }
  }

  /**
   * The (initial, subsequent) indents of paragraph `i`: only the first
   * paragraph starts with the label; later ones use the subsequent indent
   * for every line.
   */
  function ParagraphIndents(ctx: RenderContext, i: nat): (string, string)
  {
    if i == 0 then (ctx.initialIndent, ctx.subsequentIndent)
    else (ctx.subsequentIndent, ctx.subsequentIndent)
  }

  /**
   * The label appears in the indents of the first paragraph only: every
   * later paragraph's indents are the prefix followed by spaces.
   */
  lemma LabelOnlyInFirstParagraph(o: BlockOptions, w: nat, i: nat)
    requires i > 0
    ensures var ctx := Context(o, w);
      var (first, rest) := ParagraphIndents(ctx, i);
      && first == rest == ctx.subsequentIndent
      && first[..|ctx.prefix|] == ctx.prefix
      && (forall k :: |ctx.prefix| <= k < |first| ==> first[k] == ' ')
    ensures var ctx := Context(o, w);
      Label(o) != "" ==> ParagraphIndents(ctx, 0).0[|ctx.prefix|..] == "[" + Label(o) + "] "
  {
    var ctx := Context(o, w);
    if Label(o) != "" {
      assert ctx.initialIndent == ctx.prefix + ("[" + Label(o) + "] ");
    }
  }

  // ---------------------------------------------------------------------
  // Line contents

  /** The text of a padding line: the prefix filled with spaces to `w`, or the prefix alone if it is not shorter. */
  function PaddingText(prefix: string, w: nat): (r: string)
    ensures r == PadRight(prefix, w)
    ensures Utf8Len(r) == Max(w, Utf8Len(prefix))
  {
    if w > Utf8Len(prefix) then prefix + Spaces(w - Utf8Len(prefix)) else prefix
  }

  /** The colours a block's lines are drawn with. */
  function Colors(o: BlockOptions): (Option<Color>, Option<Color>)
  {
    match o.style
    case Some(s) => (s.foreground, s.background)
    case None => (None, None)
  }

  /** `print_padding_line` */
  function PaddingLineCommands(o: BlockOptions, w: nat, prefix: string): seq<Command>
  {
    var text := PaddingText(prefix, w);
    if o.style.Some? then
      [PrintStyled(text, Colors(o).0, Colors(o).1), ResetColor, Print("\r\n")]
    else
      [Print(text), Print("\r\n")]
  }

  /** `styled_print_line` */
  function BodyLineCommands(o: BlockOptions, w: nat, line: string): seq<Command>
  {
    [PrintStyled(PadRight(line, w), Colors(o).0, Colors(o).1), ResetColor, Print("\n")]
  }

  /**
   * A padding line is the prefix filled to `max(w, |prefix|)` bytes and ends
   * with "\r\n"; it resets the colour exactly when the block has a style.
   */
  lemma PaddingLineShape(o: BlockOptions, w: nat, prefix: string)
    ensures var cs := PaddingLineCommands(o, w, prefix);
      && cs[|cs| - 1] == Print("\r\n")
      && Utf8Len(cs[0].text) == Max(w, Utf8Len(prefix))
      && (ResetColor in cs <==> o.style.Some?)
      && ResetAfterStyled(cs)
  {
  }

  /**
   * A body line is the wrapped line filled to `max(w, |line|)` bytes,
   * followed by a colour reset, styled or not, and then "\n".
   */
  lemma BodyLineShape(o: BlockOptions, w: nat, line: string)
    ensures var cs := BodyLineCommands(o, w, line);
      && |cs| == 3 && cs[1] == ResetColor && cs[2] == Print("\n")
      && cs[0].PrintStyled? && cs[0].text[..|line|] == line
      && Utf8Len(cs[0].text) == Max(w, Utf8Len(line))
      && (Utf8Len(line) <= w ==> Utf8Len(cs[0].text) == w)
  {
  }

  // ---------------------------------------------------------------------
  // The block, line by line

  /** The lines of a block: blank separators, padding lines and wrapped body lines. */
  datatype Line = Blank | Padding | Body(text: string)

  function Bodies(lines: seq<string>): (r: seq<Line>)
    ensures |r| == |lines|
    ensures forall i :: 0 <= i < |lines| ==> r[i] == Body(lines[i])
  {
    seq(|lines|, i requires 0 <= i < |lines| => Body(lines[i]))
  }

  /** Paragraph `i`: a padding line before every paragraph but the first, then its wrapped lines. */
  function ParagraphLayout(ctx: RenderContext, msgs: seq<string>, i: nat, wrap: WrapFn): seq<Line>
    requires i < |msgs|
  {
    var (first, rest) := ParagraphIndents(ctx, i);
    (if i > 0 then [Padding] else []) + Bodies(wrap(msgs[i], ctx.wrapWidth, first, rest))
  }

  /** The first `n` paragraphs. */
  function ParagraphsLayout(ctx: RenderContext, msgs: seq<string>, n: nat, wrap: WrapFn): seq<Line>
    requires n <= |msgs|
  {
    if n == 0 then [] else ParagraphsLayout(ctx, msgs, n - 1, wrap) + ParagraphLayout(ctx, msgs, n - 1, wrap)
  }

  function PaddingIf(b: bool): seq<Line>
  {
    if b then [Padding] else []
  }

  /** The whole block: blank, optional padding, paragraphs, optional padding, blank. */
  function BlockLayout(m: Messages, o: BlockOptions, w: nat, wrap: WrapFn): seq<Line>
  {
    var ctx := Context(o, w);
    var msgs := Paragraphs(m);
    [Blank] + PaddingIf(o.padding) + ParagraphsLayout(ctx, msgs, |msgs|, wrap) + PaddingIf(o.padding) + [Blank]
  }

  function LineCommands(ctx: RenderContext, l: Line): seq<Command>
  {
    match l
    case Blank => [Print("\n")]
    case Padding => PaddingLineCommands(ctx.options, ctx.wrapWidth, ctx.prefix)
    case Body(t) => BodyLineCommands(ctx.options, ctx.wrapWidth, t)
  }

  /** The commands that draw a sequence of lines. */
  function Emit(ctx: RenderContext, ls: seq<Line>): seq<Command>
  {
    Flatten(seq(|ls|, i requires 0 <= i < |ls| => LineCommands(ctx, ls[i])))
  }

  lemma EmitAppend(ctx: RenderContext, a: seq<Line>, b: seq<Line>)
    ensures Emit(ctx, a + b) == Emit(ctx, a) + Emit(ctx, b)
  {
    var ga := seq(|a|, i requires 0 <= i < |a| => LineCommands(ctx, a[i]));
    var gb := seq(|b|, i requires 0 <= i < |b| => LineCommands(ctx, b[i]));
    assert seq(|a + b|, i requires 0 <= i < |a + b| => LineCommands(ctx, (a + b)[i])) == ga + gb;
    FlattenAppend(ga, gb);
  }

  lemma EmitOne(ctx: RenderContext, l: Line)
    ensures Emit(ctx, [l]) == LineCommands(ctx, l)
  {
    var g := seq(1, i requires 0 <= i < 1 => LineCommands(ctx, [l][i]));
    assert g[..0] == [];
    assert g[0] == LineCommands(ctx, l);
    assert Flatten(g) == Flatten(g[..0]) + g[0];
  }

  /** Everything `render_block` queues, ending with the flush. */
  function BlockTrace(m: Messages, o: BlockOptions, w: nat, wrap: WrapFn): seq<Command>
  {
    Emit(Context(o, w), BlockLayout(m, o, w, wrap)) + [Flush]
  }

  // ---------------------------------------------------------------------
  // Rendering

  /** `print_padding_line` */
  method PrintPaddingLine(out: Stdout, wrapWidth: nat, o: BlockOptions, prefix: string)
    modifies out
    ensures out.trace == old(out.trace) + PaddingLineCommands(o, wrapWidth, prefix)
  {
    var line := if wrapWidth > Utf8Len(prefix) then prefix + Spaces(wrapWidth - Utf8Len(prefix)) else prefix;
    if o.style.Some? {
      var s := o.style.value;
      out.QueueAll([PrintStyled(line, s.foreground, s.background), ResetColor, Print("\r\n")]);
      return;
    }
    out.QueueAll([Print(line), Print("\r\n")]);
  }

  /** `styled_print_line` */
  method StyledPrintLine(out: Stdout, line: string, wrapWidth: nat, o: BlockOptions)
    modifies out
    ensures out.trace == old(out.trace) + BodyLineCommands(o, wrapWidth, line)
  {
    var endPadding := Spaces(SaturatingSub(wrapWidth, Utf8Len(line)));
    var fg, bg := None, None;
    if o.style.Some? {
      fg, bg := o.style.value.foreground, o.style.value.background;
    }
    out.QueueAll([PrintStyled(line + endPadding, fg, bg), ResetColor, Print("\n")]);
  }

  /** The wrapped lines of one paragraph, each drawn by `styled_print_line`. */
  method PrintBodyLines(out: Stdout, lines: seq<string>, wrapWidth: nat, o: BlockOptions, ghost ctx: RenderContext)
    requires ctx.options == o && ctx.wrapWidth == wrapWidth
    modifies out
    ensures out.trace == old(out.trace) + Emit(ctx, Bodies(lines))
  {
    var j := 0;
    while j < |lines|
      invariant 0 <= j <= |lines|
      invariant out.trace == old(out.trace) + Emit(ctx, Bodies(lines[..j]))
    {
      StyledPrintLine(out, lines[j], wrapWidth, o);
      BodiesStep(ctx, lines, j);
      j := j + 1;
    }
    assert lines[..|lines|] == lines;
  }

  lemma BodiesStep(ctx: RenderContext, lines: seq<string>, j: nat)
    requires j < |lines|
    ensures Emit(ctx, Bodies(lines[..j + 1]))
         == Emit(ctx, Bodies(lines[..j])) + BodyLineCommands(ctx.options, ctx.wrapWidth, lines[j])
  {
    assert Bodies(lines[..j + 1]) == Bodies(lines[..j]) + [Body(lines[j])];
    EmitAppend(ctx, Bodies(lines[..j]), [Body(lines[j])]);
    EmitOne(ctx, Body(lines[j]));
  }

  /** Drawing one more paragraph extends the drawing of the block so far. */
  lemma ParagraphStep(ctx: RenderContext, head: seq<Line>, msgs: seq<string>, i: nat, wrap: WrapFn)
    requires i < |msgs|
    ensures var (first, rest) := ParagraphIndents(ctx, i);
      Emit(ctx, head + ParagraphsLayout(ctx, msgs, i + 1, wrap))
      == Emit(ctx, head + ParagraphsLayout(ctx, msgs, i, wrap))
         + (if i > 0 then PaddingLineCommands(ctx.options, ctx.wrapWidth, ctx.prefix) else [])
         + Emit(ctx, Bodies(wrap(msgs[i], ctx.wrapWidth, first, rest)))
  {
    var (first, rest) := ParagraphIndents(ctx, i);
    var done := head + ParagraphsLayout(ctx, msgs, i, wrap);
    var sep: seq<Line> := if i > 0 then [Padding] else [];
    var bodies := Bodies(wrap(msgs[i], ctx.wrapWidth, first, rest));
    assert head + ParagraphsLayout(ctx, msgs, i + 1, wrap) == done + sep + bodies;
    EmitAppend(ctx, done + sep, bodies);
    EmitAppend(ctx, done, sep);
    if i > 0 {
      EmitOne(ctx, Padding);
    } else {
      assert Emit(ctx, sep) == [];
    }
  }

  /** The loop of `render_block` over the paragraphs keeps the trace equal to the drawing so far. */
  lemma ParagraphTraceStep(ctx: RenderContext, start: seq<Command>, before: seq<Command>, after: seq<Command>,
                           head: seq<Line>, msgs: seq<string>, i: nat, wrap: WrapFn, first: string, rest: string)
    requires i < |msgs|
    requires (first, rest) == ParagraphIndents(ctx, i)
    requires before == start + Emit(ctx, head + ParagraphsLayout(ctx, msgs, i, wrap))
    requires after
      == (if i > 0 then before + PaddingLineCommands(ctx.options, ctx.wrapWidth, ctx.prefix) else before)
         + Emit(ctx, Bodies(wrap(msgs[i], ctx.wrapWidth, first, rest)))
    ensures after == start + Emit(ctx, head + ParagraphsLayout(ctx, msgs, i + 1, wrap))
  {
    ParagraphStep(ctx, head, msgs, i, wrap);
    Assoc(start, Emit(ctx, head + ParagraphsLayout(ctx, msgs, i, wrap)),
      (if i > 0 then PaddingLineCommands(ctx.options, ctx.wrapWidth, ctx.prefix) else []),
      Emit(ctx, Bodies(wrap(msgs[i], ctx.wrapWidth, first, rest))));
  }

  /** Appending one line to the drawing. */
  lemma EmitSnoc(ctx: RenderContext, ls: seq<Line>, l: Line)
    ensures Emit(ctx, ls + [l]) == Emit(ctx, ls) + LineCommands(ctx, l)
  {
    EmitAppend(ctx, ls, [l]);
    EmitOne(ctx, l);
  }

  /**
   * `render_block`: `termWidth` is what the terminal reports (None when the
   * size is unavailable) and `windows` stands for the Windows build.
   */
  method RenderBlock(out: Stdout, message: Messages, o: BlockOptions, termWidth: Option<nat>, windows: bool, wrap: WrapFn)
    modifies out
    ensures out.trace == old(out.trace) + BlockTrace(message, o, WrapWidth(termWidth, windows), wrap)
  {
    var t := termWidth.GetOr(MAX_WRAP_WIDTH);
    var wrapWidth := if t > MAX_WRAP_WIDTH then MAX_WRAP_WIDTH else t;
    if windows {
      wrapWidth := SaturatingSub(wrapWidth, 1);
    }
    assert wrapWidth == WrapWidth(termWidth, windows);
    RenderBlockAtWidth(out, message, o, wrapWidth, wrap);
  }

  /** The rest of `render_block`, once the wrap width is known. */
  method RenderBlockAtWidth(out: Stdout, message: Messages, o: BlockOptions, wrapWidth: nat, wrap: WrapFn)
    modifies out
    ensures out.trace == old(out.trace) + BlockTrace(message, o, wrapWidth, wrap)
  {
    var prefix := o.prefix;
    if prefix == [] {
      prefix := " ";
    }
    ghost var ctx := Context(o, wrapWidth);
    assert ctx.prefix == prefix;
    ghost var start := out.trace;
    RenderOpening(out, o, wrapWidth, prefix, ctx);
    ghost var head := [Blank] + PaddingIf(o.padding);

    var initialIndent := InitialIndent(prefix, Label(o));
    var subsequentIndent := SubsequentIndent(prefix, initialIndent);
    assert ctx == RenderContext(o, wrapWidth, prefix, initialIndent, subsequentIndent);

    var messages := Paragraphs(message);
    PrintParagraphs(out, messages, o, wrapWidth, prefix, initialIndent, subsequentIndent, wrap, ctx, start, head);
    RenderClosing(out, o, wrapWidth, prefix, ctx, start, head + ParagraphsLayout(ctx, messages, |messages|, wrap));
    assert BlockLayout(message, o, wrapWidth, wrap)
        == head + ParagraphsLayout(ctx, messages, |messages|, wrap) + PaddingIf(o.padding) + [Blank];
  }

  /** The opening of a block: an empty line, then a padding line when padding is on. */
  method RenderOpening(out: Stdout, o: BlockOptions, wrapWidth: nat, prefix: string, ghost ctx: RenderContext)
    requires ctx.options == o && ctx.wrapWidth == wrapWidth && ctx.prefix == prefix
    modifies out
    ensures out.trace == old(out.trace) + Emit(ctx, [Blank] + PaddingIf(o.padding))
  {
    ghost var start := out.trace;
    out.Queue(Print("\n"));
    EmitOne(ctx, Blank);
    if o.padding {
      PrintPaddingLine(out, wrapWidth, o, prefix);
      EmitSnoc(ctx, [Blank], Padding);
      Assoc3(start, Emit(ctx, [Blank]), LineCommands(ctx, Padding));
      assert [Blank] + PaddingIf(o.padding) == [Blank] + [Padding];
    } else {
      assert [Blank] + PaddingIf(o.padding) == [Blank];
    }
  }

  /** The loop of `render_block` over the paragraphs. */
  method PrintParagraphs(out: Stdout, messages: seq<string>, o: BlockOptions, wrapWidth: nat, prefix: string,
                         initialIndent: string, subsequentIndent: string, wrap: WrapFn,
                         ghost ctx: RenderContext, ghost start: seq<Command>, ghost head: seq<Line>)
    requires ctx == RenderContext(o, wrapWidth, prefix, initialIndent, subsequentIndent)
    requires out.trace == start + Emit(ctx, head)
    modifies out
    ensures out.trace == start + Emit(ctx, head + ParagraphsLayout(ctx, messages, |messages|, wrap))
  {
    var i := 0;
    assert head + ParagraphsLayout(ctx, messages, 0, wrap) == head;
    while i < |messages|
      invariant 0 <= i <= |messages|
      invariant out.trace == start + Emit(ctx, head + ParagraphsLayout(ctx, messages, i, wrap))
    {
      ghost var before := out.trace;
      if i > 0 {
        PrintPaddingLine(out, wrapWidth, o, prefix);
      }
      var first, rest := if i == 0 then initialIndent else subsequentIndent, subsequentIndent;
      var lines := wrap(messages[i], wrapWidth, first, rest);
      PrintBodyLines(out, lines, wrapWidth, o, ctx);
      ParagraphTraceStep(ctx, start, before, out.trace, head, messages, i, wrap, first, rest);
      i := i + 1;
    }
  }

  /** The closing of a block: a padding line when padding is on, an empty line, then the flush. */
  method RenderClosing(out: Stdout, o: BlockOptions, wrapWidth: nat, prefix: string, ghost ctx: RenderContext,
                       ghost start: seq<Command>, ghost body: seq<Line>)
    requires ctx.options == o && ctx.wrapWidth == wrapWidth && ctx.prefix == prefix
    requires out.trace == start + Emit(ctx, body)
    modifies out
    ensures out.trace == start + Emit(ctx, body + PaddingIf(o.padding) + [Blank]) + [Flush]
  {
    ghost var tail := PaddingIf(o.padding);
    if o.padding {
      PrintPaddingLine(out, wrapWidth, o, prefix);
      EmitSnoc(ctx, body, Padding);
      Assoc3(start, Emit(ctx, body), LineCommands(ctx, Padding));
    } else {
      assert body + tail == body;
    }
    assert out.trace == start + Emit(ctx, body + tail);
    out.Queue(Print("\n"));
    EmitSnoc(ctx, body + tail, Blank);
    Assoc3(start, Emit(ctx, body + tail), [Print("\n")]);
    out.Queue(Flush);
  }
}
