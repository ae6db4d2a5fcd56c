/**
 * The seven ready-made blocks (success, caution, error, comment, warning,
 * info, note): each is `render_block` with a constant set of options.
 */
module Presets {
  import opened Optional
  import opened Strings
  import opened StyleOptions
  import opened BlockOptions
  import opened Messages
  import opened Terminal
  import opened Block

  datatype Preset = Success | Caution | Error | Comment | Warning | Info | Note

  function Style(fg: Color, bg: Option<Color>): Option<StyleOptions>
  {
    Some(StyleOptions(Some(fg), bg))
  }

  /** The options each preset passes to `render_block`; unnamed fields take their defaults. */
  function PresetOptions(p: Preset): BlockOptions
  {
    match p
    case Success => BlockOptions(Some("OK"), Style(Black, Some(DarkGreen)), "", true)
    case Caution => BlockOptions(Some("CAUTION"), Style(Grey, Some(DarkRed)), " ! ", true)
    case Error => BlockOptions(Some("ERROR"), Style(Grey, Some(DarkRed)), " ", true)
    case Comment => DefaultBlockOptions().(prefix := " // ")
    case Warning => BlockOptions(Some("WARNING"), Style(Black, Some(DarkYellow)), "", true)
    case Info => BlockOptions(Some("INFO"), Style(Green, None), "", true)
    case Note => BlockOptions(Some("NOTE"), Style(DarkYellow, None), " ! ", false)
  }

  /** The first-line indent each preset draws, label included. */
  function ExpectedInitialIndent(p: Preset): string
  {
    match p
    case Success => " [OK] "
    case Caution => " ! [CAUTION] "
    case Error => " [ERROR] "
    case Comment => " // "
    case Warning => " [WARNING] "
    case Info => " [INFO] "
    case Note => " ! [NOTE] "
  }

  /** With an ASCII prefix and label, byte lengths are character counts and the indents are as drawn. */
  lemma AsciiIndents(prefix: string, blockType: string)
    requires IsAscii(prefix) && IsAscii(blockType)
    ensures var init := InitialIndent(prefix, blockType);
      && |prefix| <= |init|
      && SubsequentIndent(prefix, init) == prefix + Spaces(|init| - |prefix|)
      && Utf8Len(SubsequentIndent(prefix, init)) == |init|
  {
    var init := InitialIndent(prefix, blockType);
    assert IsAscii(init);
    Utf8LenAscii(init);
    Utf8LenAscii(prefix);
  }

  /**
   * The indents of each preset: the first line starts with the prefix and
   * the bracketed label, and every other line with the prefix followed by
   * spaces, exactly as many bytes long as the first-line indent.
   */
  lemma PresetIndents(p: Preset, w: nat)
    ensures var ctx := Context(PresetOptions(p), w);
      && ctx.initialIndent == ExpectedInitialIndent(p)
      && |ctx.prefix| <= |ctx.initialIndent|
      && ctx.subsequentIndent == ctx.prefix + Spaces(|ctx.initialIndent| - |ctx.prefix|)
      && Utf8Len(ctx.subsequentIndent) == |ctx.initialIndent|
  {
    var o := PresetOptions(p);
    var prefix := EffectivePrefix(o.prefix);
    assert IsAscii(prefix) && IsAscii(Label(o));
    AsciiIndents(prefix, Label(o));
    InitialIndentOf(p);
  }

  lemma InitialIndentOf(p: Preset)
    ensures InitialIndent(EffectivePrefix(PresetOptions(p).prefix), Label(PresetOptions(p))) == ExpectedInitialIndent(p)
  {
    match p
    case Success => assert " " + "[" + "OK" + "] " == " [OK] ";
    case Caution => assert " ! " + "[" + "CAUTION" + "] " == " ! [CAUTION] ";
    case Error => assert " " + "[" + "ERROR" + "] " == " [ERROR] ";
    case Comment =>
    case Warning => assert " " + "[" + "WARNING" + "] " == " [WARNING] ";
    case Info => assert " " + "[" + "INFO" + "] " == " [INFO] ";
    case Note => assert " ! " + "[" + "NOTE" + "] " == " ! [NOTE] ";
  }

  /**
   * The defaults left unnamed: success, warning and info keep the empty
   * prefix, which is drawn as one space, and comment is the default block
   * with the prefix " // ".
   */
  lemma PresetDefaults()
    ensures forall p :: p in {Success, Warning, Info} ==>
      PresetOptions(p).prefix == "" && Context(PresetOptions(p), 0).prefix == " "
    ensures PresetOptions(Comment) == DefaultBlockOptions().(prefix := " // ")
  {
  }

  /** Exactly comment and note have no top and bottom padding lines. */
  lemma PresetPadding(p: Preset)
    ensures PresetOptions(p).padding <==> p != Comment && p != Note
  {
  }

  /** Every preset but comment carries a label and a style; the labels are pairwise distinct. */
  lemma PresetLabels(p: Preset, q: Preset)
    ensures p != Comment ==> PresetOptions(p).blockType.Some? && PresetOptions(p).style.Some?
    ensures PresetOptions(Comment).blockType.None? && PresetOptions(Comment).style.None?
    ensures p != q ==> PresetOptions(p).blockType != PresetOptions(q).blockType
  {
  }

  /** `success`, `caution`, `error`, `comment`, `warning`, `info` and `note`. */
  method RenderPreset(out: Stdout, p: Preset, message: Messages, termWidth: Option<nat>, windows: bool, wrap: WrapFn)
    modifies out
    ensures out.trace == old(out.trace) + BlockTrace(message, PresetOptions(p), WrapWidth(termWidth, windows), wrap)
  {
    var o: BlockOptions;
    match p {
      case Success =>
        o := BlockOptions(Some("OK"), Some(StyleOptions(Some(Black), Some(DarkGreen))), "", true);
      case Caution =>
        o := BlockOptions(Some("CAUTION"), Some(StyleOptions(Some(Grey), Some(DarkRed))), " ! ", true);
      case Error =>
        o := BlockOptions(Some("ERROR"), Some(StyleOptions(Some(Grey), Some(DarkRed))), " ", true);
      case Comment =>
        o := DefaultBlockOptions();
        o := o.(prefix := " // ");
      case Warning =>
        o := BlockOptions(Some("WARNING"), Some(StyleOptions(Some(Black), Some(DarkYellow))), "", true);
      case Info =>
        o := BlockOptions(Some("INFO"), Some(StyleOptions(Some(Green), None)), "", true);
      case Note =>
        o := BlockOptions(Some("NOTE"), Some(StyleOptions(Some(DarkYellow), None)), " ! ", false);
    }
    RenderBlock(out, message, o, termWidth, windows, wrap);
  }
}
