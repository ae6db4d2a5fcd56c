/** The message value: one string or an ordered list of strings. */
module Messages {

  datatype Messages = Single(text: string) | Multiple(texts: seq<string>)

  /** `impl From<String> for Messages` */
  function FromString(s: string): (m: Messages)
    ensures m.Single? && m.text == s
  {
    Single(s)
  }

  /** `impl From<&str> for Messages`: the slice is copied into an owned string. */
  function FromStr(s: string): (m: Messages)
    ensures m.Single? && m.text == s
  {
    Single(s[..])
  }

  /** `impl From<Vec<String>> for Messages`: any vector, the empty one included. */
  function FromStrings(v: seq<string>): (m: Messages)
    ensures m.Multiple? && m.texts == v
  {
    Multiple(v)
  }

  /** `vec.into_iter().map(String::from).collect()` */
  function ToOwned(v: seq<string>): (r: seq<string>)
    ensures |r| == |v|
    ensures forall i :: 0 <= i < |v| ==> r[i] == v[i]
  {
    if v == [] then [] else [v[0][..]] + ToOwned(v[1..])
  }

  /** `impl From<Vec<&str>> for Messages` */
  function FromStrs(v: seq<string>): (m: Messages)
    ensures m.Multiple? && m.texts == v
  {
    Multiple(ToOwned(v))
  }

  /** The list of paragraphs a block renders (the `match` at the start of rendering). */
  function Paragraphs(m: Messages): (r: seq<string>)
    ensures m.Single? ==> r == [m.text]
    ensures m.Multiple? ==> r == m.texts
  {
    match m
    case Single(s) => [s]
    case Multiple(v) => v
  }

  /** Converting a list and rendering it as paragraphs gives the list back, in order. */
  lemma ParagraphsRoundTrip(v: seq<string>, s: string)
    ensures Paragraphs(FromStrings(v)) == v && Paragraphs(FromStrs(v)) == v
    ensures Paragraphs(FromString(s)) == [s] && Paragraphs(FromStr(s)) == [s]
  {
  }
}
