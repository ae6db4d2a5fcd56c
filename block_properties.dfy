/**
 * What a rendered block looks like as a whole: how many padding lines it
 * has, how its trace begins and ends, and that every styled print is
 * followed by a colour reset.
 */
module BlockProperties {
  import opened Optional
  import opened Strings
  import opened StyleOptions
  import opened BlockOptions
  import opened Messages
  import opened Terminal
  import opened Block

  /** The number of padding lines among `ls`. */
  function CountPadding(ls: seq<Line>): nat
  {
    multiset(ls)[Padding]
  }

  lemma BodiesHaveNoPadding(lines: seq<string>)
    ensures CountPadding(Bodies(lines)) == 0
  {
    assert Padding !in Bodies(lines);
  }

  /** Paragraph `i` holds one padding line (the separator) when `i > 0` and none otherwise. */
  lemma ParagraphPadding(ctx: RenderContext, msgs: seq<string>, i: nat, wrap: WrapFn)
    requires i < |msgs|
    ensures CountPadding(ParagraphLayout(ctx, msgs, i, wrap)) == if i > 0 then 1 else 0
  {
    var (first, rest) := ParagraphIndents(ctx, i);
    BodiesHaveNoPadding(wrap(msgs[i], ctx.wrapWidth, first, rest));
  }

  /** `n` paragraphs are separated by `n - 1` padding lines. */
  lemma {:induction false} ParagraphsPadding(ctx: RenderContext, msgs: seq<string>, n: nat, wrap: WrapFn)
    requires n <= |msgs|
    ensures CountPadding(ParagraphsLayout(ctx, msgs, n, wrap)) == SaturatingSub(n, 1)
  {
    if n > 0 {
      ParagraphsPadding(ctx, msgs, n - 1, wrap);
      ParagraphPadding(ctx, msgs, n - 1, wrap);
    }
  }

  /**
   * A block of `n` paragraphs has `2·[padding] + (n − 1)` padding lines:
   * one above and one below when padding is on, and one between any two
   * paragraphs whatever the padding flag says.
   */
  lemma BlockPaddingCount(m: Messages, o: BlockOptions, w: nat, wrap: WrapFn)
    ensures CountPadding(BlockLayout(m, o, w, wrap))
         == (if o.padding then 2 else 0) + SaturatingSub(|Paragraphs(m)|, 1)
  {
    ParagraphsPadding(Context(o, w), Paragraphs(m), |Paragraphs(m)|, wrap);
  }

  /** The layout starts with a blank line, then the top padding line exactly when padding is on. */
  lemma BlockLayoutEnds(m: Messages, o: BlockOptions, w: nat, wrap: WrapFn)
    ensures var ls := BlockLayout(m, o, w, wrap);
      && |ls| >= 2 && ls[0] == Blank && ls[|ls| - 1] == Blank
      && (o.padding ==> ls[1] == Padding && ls[|ls| - 2] == Padding)
      && (!o.padding && |Paragraphs(m)| == 0 ==> ls == [Blank, Blank])
  {
  }

  /** Every line's commands put a colour reset right after each styled print. */
  lemma LineResets(ctx: RenderContext, l: Line)
    ensures ResetAfterStyled(LineCommands(ctx, l))
  {
    match l
    case Blank =>
    case Padding => PaddingLineShape(ctx.options, ctx.wrapWidth, ctx.prefix);
    case Body(t) =>
  }

  lemma EmitResets(ctx: RenderContext, ls: seq<Line>)
    ensures ResetAfterStyled(Emit(ctx, ls))
  {
    var g := seq(|ls|, i requires 0 <= i < |ls| => LineCommands(ctx, ls[i]));
    forall i | 0 <= i < |g|
      ensures ResetAfterStyled(g[i])
    {
      LineResets(ctx, ls[i]);
    }
    ResetAfterStyledFlatten(g);
  }

  /**
   * The whole trace of a block: it starts with "\n", ends with "\n" and a
   * flush, and every styled print in it is followed by a colour reset.
   */
  lemma BlockTraceShape(m: Messages, o: BlockOptions, w: nat, wrap: WrapFn)
    ensures var t := BlockTrace(m, o, w, wrap);
      && |t| >= 3 && t[0] == Print("\n")
      && t[|t| - 2] == Print("\n") && t[|t| - 1] == Flush
      && ResetAfterStyled(t)
  {
    var ctx := Context(o, w);
    var msgs := Paragraphs(m);
    var ls := BlockLayout(m, o, w, wrap);
    var inner := PaddingIf(o.padding) + ParagraphsLayout(ctx, msgs, |msgs|, wrap) + PaddingIf(o.padding);
    assert ls == [Blank] + inner + [Blank];
    EmitFramed(ctx, inner);
    EmitResets(ctx, ls);
    FlushedShape(Emit(ctx, ls));
  }

  /** Appending the flush to such commands keeps the resets and puts the newline second to last. */
  lemma FlushedShape(e: seq<Command>)
    requires |e| >= 2 && e[0] == Print("\n") && e[|e| - 1] == Print("\n") && ResetAfterStyled(e)
    ensures var t := e + [Flush];
      && |t| >= 3 && t[0] == Print("\n")
      && t[|t| - 2] == Print("\n") && t[|t| - 1] == Flush
      && ResetAfterStyled(t)
  {
    ResetAfterStyledAppend(e, [Flush]);
  }

  /** Lines between two blank lines are emitted between two newlines. */
  lemma EmitFramed(ctx: RenderContext, inner: seq<Line>)
    ensures var e := Emit(ctx, [Blank] + inner + [Blank]);
      |e| >= 2 && e[0] == Print("\n") && e[|e| - 1] == Print("\n")
  {
    EmitAppend(ctx, [Blank] + inner, [Blank]);
    EmitAppend(ctx, [Blank], inner);
    EmitOne(ctx, Blank);
  }

  /**
   * With the default options a block has the one-space prefix as both
   * indents, no label, no colours, plain padding lines, and padding lines
   * only between paragraphs.
   */
  lemma DefaultBlock(m: Messages, w: nat, wrap: WrapFn)
    ensures var ctx := Context(DefaultBlockOptions(), w);
      && ctx.prefix == " " && ctx.initialIndent == " " && ctx.subsequentIndent == " "
      && Colors(DefaultBlockOptions()) == (None, None)
      && PaddingLineCommands(DefaultBlockOptions(), w, " ") == [Print(PadRight(" ", w)), Print("\r\n")]
    ensures CountPadding(BlockLayout(m, DefaultBlockOptions(), w, wrap)) == SaturatingSub(|Paragraphs(m)|, 1)
  {
    var ctx := Context(DefaultBlockOptions(), w);
    assert Utf8Len(" ") == 1 by {
      assert " " == [] + [' '];
    }
    assert ctx.subsequentIndent == " " + Spaces(0);
    BlockPaddingCount(m, DefaultBlockOptions(), w, wrap);
  }
}
