/**
 * Key presses as the prompts see them: the key code, and for a character
 * whether the Control modifier was held. Every other event, and every
 * other key, is `OtherKey`.
 */
module Keys {
  datatype Key =
    | Char(c: char, ctrl: bool)
    | Enter
    | Backspace
    | Tab
    | Up
    | Down
    | OtherKey

  /** The keys typed to enter the text `w`, without modifiers. */
  function Typed(w: string): (ks: seq<Key>)
    ensures |ks| == |w|
    ensures forall i :: 0 <= i < |w| ==> ks[i] == Char(w[i], false)
  {
    seq(|w|, i requires 0 <= i < |w| => Char(w[i], false))
  }
}
