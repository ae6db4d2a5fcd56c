/**
 * Underlined headers: the message, then a line of one repeated character
 * as many characters long as the message has bytes. `title` underlines
 * with '=' and `section` with '-', both in dark green.
 */
module Headers {
  import opened Optional
  import opened Strings
  import opened StyleOptions
  import opened Terminal

  /** The underline: `underline_char` once per byte of the message. */
  function Underline(message: string, ch: char): (r: string)
    ensures |r| == Utf8Len(message)
    ensures forall i :: 0 <= i < |r| ==> r[i] == ch
  {
    Repeat(ch, Utf8Len(message))
  }

  /** With an ASCII underline character the underline has as many bytes as the message. */
  lemma UnderlineMatchesMessage(message: string, ch: char)
    requires ch as int < 0x80
    ensures Utf8Len(Underline(message, ch)) == Utf8Len(message)
  {
    RepeatAsciiLen(ch, Utf8Len(message));
  }

  function Foreground(style: Option<StyleOptions>): Option<Color>
  {
    if style.Some? then style.value.foreground else None
  }

  function Background(style: Option<StyleOptions>): Option<Color>
  {
    if style.Some? then style.value.background else None
  }

  /** The colour settings a style names, foreground first. */
  function StyleCommands(style: Option<StyleOptions>): seq<Command>
  {
    (if Foreground(style).Some? then [SetForegroundColor(Foreground(style).value)] else [])
    + (if Background(style).Some? then [SetBackgroundColor(Background(style).value)] else [])
  }

  /** Everything `render_underline_with_char` queues. */
  function UnderlineTrace(message: string, ch: char, style: Option<StyleOptions>): seq<Command>
  {
    var fg := Foreground(style);
    var bg := Background(style);
    StyleCommands(style)
    + [PrintStyled(message, fg, bg), ResetColor, Print("\n"),
       PrintStyled(Underline(message, ch), fg, bg), ResetColor, Print("\n"),
       Print("\n"), Flush]
  }

  /**
   * The order of a header: the colour settings that the style names
   * (foreground first), the message and the underline in the same colours,
   * each followed by a reset and a newline, then an empty line and the flush.
   */
  lemma UnderlineTraceShape(message: string, ch: char, style: Option<StyleOptions>)
    ensures var t := UnderlineTrace(message, ch, style);
      var k := (if Foreground(style).Some? then 1 else 0) + (if Background(style).Some? then 1 else 0);
      && |t| == k + 8
      && (forall i :: 0 <= i < k ==> t[i].SetForegroundColor? || t[i].SetBackgroundColor?)
      && t[k] == PrintStyled(message, Foreground(style), Background(style))
      && t[k + 3] == PrintStyled(Underline(message, ch), Foreground(style), Background(style))
      && t[k + 1] == t[k + 4] == ResetColor
      && t[k + 2] == t[k + 5] == t[k + 6] == Print("\n")
      && t[k + 7] == Flush
      && ResetAfterStyled(t)
  {
  }

  /** `render_underline_with_char` */
  method RenderUnderlineWithChar(out: Stdout, message: string, ch: char, style: Option<StyleOptions>)
    modifies out
    ensures out.trace == old(out.trace) + UnderlineTrace(message, ch, style)
  {
    var underline := Repeat(ch, Utf8Len(message));
    var fg, bg := QueueStyle(out, style);
    out.QueueAll([PrintStyled(message, fg, bg), ResetColor, Print("\n"),
                  PrintStyled(underline, fg, bg), ResetColor, Print("\n")]);
    out.Queue(Print("\n"));
    out.Queue(Flush);
  }

  /** Queues the colour settings of the style and returns its colours. */
  method QueueStyle(out: Stdout, style: Option<StyleOptions>) returns (fg: Option<Color>, bg: Option<Color>)
    modifies out
    ensures fg == Foreground(style) && bg == Background(style)
    ensures out.trace == old(out.trace) + StyleCommands(style)
  {
    fg, bg := None, None;
    if style.Some? {
      if style.value.foreground.Some? {
        fg := style.value.foreground;
        out.Queue(SetForegroundColor(fg.value));
      }
      if style.value.background.Some? {
        bg := style.value.background;
        out.Queue(SetBackgroundColor(bg.value));
      }
    }
  }

  /** The style of titles and sections: dark green text, no background. */
  function HeaderStyle(): Option<StyleOptions>
  {
    Some(StyleOptions(Some(DarkGreen), None))
  }

  /** `title`: the message underlined with '=' in dark green. */
  method Title(out: Stdout, message: string)
    modifies out
    ensures out.trace == old(out.trace) + UnderlineTrace(message, '=', HeaderStyle())
  {
    RenderUnderlineWithChar(out, message, '=', Some(StyleOptions(Some(DarkGreen), None)));
  }

  /** `section`: the message underlined with '-' in dark green. */
  method Section(out: Stdout, message: string)
    modifies out
    ensures out.trace == old(out.trace) + UnderlineTrace(message, '-', HeaderStyle())
  {
    RenderUnderlineWithChar(out, message, '-', Some(StyleOptions(Some(DarkGreen), None)));
  }

  /**
   * A title or section header sets the foreground to dark green and no
   * background, and its underline is exactly as many bytes long as the
   * message, made of '=' or '-' respectively.
   */
  lemma HeaderLines(message: string, ch: char)
    requires ch == '=' || ch == '-'
    ensures var t := UnderlineTrace(message, ch, HeaderStyle());
      && |t| == 9 && t[0] == SetForegroundColor(DarkGreen)
      && t[1] == PrintStyled(message, Some(DarkGreen), None)
      && t[4].PrintStyled? && Utf8Len(t[4].text) == Utf8Len(message)
      && (forall i :: 0 <= i < |t[4].text| ==> t[4].text[i] == ch)
  {
    UnderlineMatchesMessage(message, ch);
  }
}
