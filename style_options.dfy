/** `StyleOptions`: an optional foreground and an optional background colour. */
module StyleOptions {
  import opened Optional

  /** The named colours of the terminal library the source styles with. */
  datatype Color =
    | Reset | Black | DarkGrey | Red | DarkRed | Green | DarkGreen
    | Yellow | DarkYellow | Blue | DarkBlue | Magenta | DarkMagenta
    | Cyan | DarkCyan | White | Grey

  datatype StyleOptions = StyleOptions(foreground: Option<Color>, background: Option<Color>)

  /** `StyleOptions::default()` */
  function DefaultStyleOptions(): StyleOptions
  {
    StyleOptions(None, None)
  }
}
