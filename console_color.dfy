/**
 * The sixteen console colours and their ANSI escape codes: Select Graphic
 * Rendition (SGR, section 8.3.117 of ECMA-48) with parameters 30-37 for the
 * foreground and 40-47 for the background, and the widespread "bright"
 * extension 90-97 and 100-107, which ECMA-48 itself does not define.
 */
module ConsoleColors {
  import opened Optional
  import opened Strings

  datatype ConsoleColor =
    | Black | Red | Green | Yellow | Blue | Magenta | Cyan | White
    | BrightBlack | BrightRed | BrightGreen | BrightYellow
    | BrightBlue | BrightMagenta | BrightCyan | BrightWhite

  /** Position of the colour in the declaration, from 0. */
  function Ordinal(c: ConsoleColor): (n: nat)
    ensures n < 16
  {
    match c
    case Black => 0
    case Red => 1
    case Green => 2
    case Yellow => 3
    case Blue => 4
    case Magenta => 5
    case Cyan => 6
    case White => 7
    case BrightBlack => 8
    case BrightRed => 9
    case BrightGreen => 10
    case BrightYellow => 11
    case BrightBlue => 12
    case BrightMagenta => 13
    case BrightCyan => 14
    case BrightWhite => 15
  }

  /** The colour at a declaration position. */
  function FromOrdinal(n: nat): (c: ConsoleColor)
    requires n < 16
    ensures Ordinal(c) == n
  {
    [Black, Red, Green, Yellow, Blue, Magenta, Cyan, White,
     BrightBlack, BrightRed, BrightGreen, BrightYellow,
     BrightBlue, BrightMagenta, BrightCyan, BrightWhite][n]
  }

  /** Declaration positions identify colours. */
  lemma OrdinalRoundTrip(c: ConsoleColor)
    ensures FromOrdinal(Ordinal(c)) == c
  {
  }

  const ESC: char := '\U{1B}'

  /** The control sequence `ESC [ <n> m`. */
  function Sgr(n: nat): string
  {
    [ESC, '['] + Decimal(n) + ['m']
  }

  /** A well-formed SGR sequence with one numeric parameter. */
  predicate IsSgrSequence(s: string)
  {
    |s| >= 4 && s[0] == ESC && s[1] == '[' && s[|s| - 1] == 'm' && AllDigits(s[2..|s| - 1])
  }

  /** Reads the parameter back from an SGR sequence. */
  function SgrParameter(s: string): (r: Option<nat>)
    ensures r.Some? <==> IsSgrSequence(s)
  {
    if IsSgrSequence(s) then Some(DigitsValue(s[2..|s| - 1])) else None
  }

  /** Every `Sgr(n)` is well formed and gives `n` back. */
  lemma SgrRoundTrip(n: nat)
    ensures IsSgrSequence(Sgr(n))
    ensures SgrParameter(Sgr(n)) == Some(n)
  {
    var s := Sgr(n);
    assert s[2..|s| - 1] == Decimal(n);
    DigitsValueOfDecimal(n);
  }

  /** The characters of `Sgr(n)` for a two- or three-digit parameter. */
  lemma SgrDigits(n: nat)
    requires 10 <= n < 1000
    ensures n < 100 ==> Sgr(n) == [ESC, '[', DigitChar(n / 10), DigitChar(n % 10), 'm']
    ensures n >= 100 ==> Sgr(n) == [ESC, '[', DigitChar(n / 100), DigitChar(n / 10 % 10), DigitChar(n % 10), 'm']
  {
    var d: string;
    if n >= 100 {
      assert Decimal(n / 10) == [DigitChar(n / 100), DigitChar(n / 10 % 10)];
      d := [DigitChar(n / 100), DigitChar(n / 10 % 10), DigitChar(n % 10)];
    } else {
      d := [DigitChar(n / 10), DigitChar(n % 10)];
    }
    assert Decimal(n) == d;
    assert Sgr(n) == [ESC, '['] + d + ['m'];
  }

  /** The SGR parameter chosen for a foreground colour. */
  function FgParameter(c: ConsoleColor): nat
  {
    if Ordinal(c) < 8 then 30 + Ordinal(c) else 90 + (Ordinal(c) - 8)
  }

  /** The SGR parameter chosen for a background colour. */
  function BgParameter(c: ConsoleColor): nat
  {
    if Ordinal(c) < 8 then 40 + Ordinal(c) else 100 + (Ordinal(c) - 8)
  }

  /** `ConsoleColor::to_fg_ansi_code` */
  function FgCode(c: ConsoleColor): (r: string)
    ensures r == Sgr(FgParameter(c))
  {
    SgrDigits(FgParameter(c));
    match c
    case Black => "\U{1B}[30m"
    case Red => "\U{1B}[31m"
    case Green => "\U{1B}[32m"
    case Yellow => "\U{1B}[33m"
    case Blue => "\U{1B}[34m"
    case Magenta => "\U{1B}[35m"
    case Cyan => "\U{1B}[36m"
    case White => "\U{1B}[37m"
    case BrightBlack => "\U{1B}[90m"
    case BrightRed => "\U{1B}[91m"
    case BrightGreen => "\U{1B}[92m"
    case BrightYellow => "\U{1B}[93m"
    case BrightBlue => "\U{1B}[94m"
    case BrightMagenta => "\U{1B}[95m"
    case BrightCyan => "\U{1B}[96m"
    case BrightWhite => "\U{1B}[97m"
  }

  /** `ConsoleColor::to_bg_ansi_code` */
  function BgCode(c: ConsoleColor): (r: string)
    ensures r == Sgr(BgParameter(c))
  {
    SgrDigits(BgParameter(c));
    match c
    case Black => "\U{1B}[40m"
    case Red => "\U{1B}[41m"
    case Green => "\U{1B}[42m"
    case Yellow => "\U{1B}[43m"
    case Blue => "\U{1B}[44m"
    case Magenta => "\U{1B}[45m"
    case Cyan => "\U{1B}[46m"
    case White => "\U{1B}[47m"
    case BrightBlack => "\U{1B}[100m"
    case BrightRed => "\U{1B}[101m"
    case BrightGreen => "\U{1B}[102m"
    case BrightYellow => "\U{1B}[103m"
    case BrightBlue => "\U{1B}[104m"
    case BrightMagenta => "\U{1B}[105m"
    case BrightCyan => "\U{1B}[106m"
    case BrightWhite => "\U{1B}[107m"
  }

  /**
   * The eight standard colours, in declaration order, select foreground
   * parameters 30 to 37, and their bright variants 90 to 97.
   */
  lemma FgCodesInDeclarationOrder(k: nat)
    requires k < 8
    ensures FgCode(FromOrdinal(k)) == Sgr(30 + k)
    ensures FgCode(FromOrdinal(k + 8)) == Sgr(90 + k)
    ensures SgrParameter(FgCode(FromOrdinal(k))) == Some(30 + k)
    ensures SgrParameter(FgCode(FromOrdinal(k + 8))) == Some(90 + k)
  {
    SgrRoundTrip(30 + k);
    SgrRoundTrip(90 + k);
  }

  /** Each background code carries the foreground parameter plus ten. */
  lemma BgParameterIsFgPlusTen(c: ConsoleColor)
    ensures SgrParameter(FgCode(c)).Some? && SgrParameter(BgCode(c)).Some?
    ensures SgrParameter(BgCode(c)).value == SgrParameter(FgCode(c)).value + 10
  {
    SgrRoundTrip(FgParameter(c));
    SgrRoundTrip(BgParameter(c));
  }

  /** Every code is `ESC [ digits m`. */
  lemma CodesAreSgrSequences(c: ConsoleColor)
    ensures IsSgrSequence(FgCode(c)) && IsSgrSequence(BgCode(c))
  {
    SgrRoundTrip(FgParameter(c));
    SgrRoundTrip(BgParameter(c));
  }

  /** Distinct colours have distinct foreground codes. */
  lemma FgCodeInjective(a: ConsoleColor, b: ConsoleColor)
    ensures FgCode(a) == FgCode(b) ==> a == b
  {
    SgrRoundTrip(FgParameter(a));
    SgrRoundTrip(FgParameter(b));
    OrdinalRoundTrip(a);
    OrdinalRoundTrip(b);
  }

  /** Distinct colours have distinct background codes. */
  lemma BgCodeInjective(a: ConsoleColor, b: ConsoleColor)
    ensures BgCode(a) == BgCode(b) ==> a == b
  {
    SgrRoundTrip(BgParameter(a));
    SgrRoundTrip(BgParameter(b));
    OrdinalRoundTrip(a);
    OrdinalRoundTrip(b);
  }

  /** No foreground code is also a background code. */
  lemma FgAndBgCodesDisjoint(a: ConsoleColor, b: ConsoleColor)
    ensures FgCode(a) != BgCode(b)
  {
    SgrRoundTrip(FgParameter(a));
    SgrRoundTrip(BgParameter(b));
  }
}
