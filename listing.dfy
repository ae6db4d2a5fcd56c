/** `listing`: one "* item" line per item, then a flush. */
module Listing {
  import opened Terminal

  function ItemLine(item: string): string
  {
    "* " + item + "\n"
  }

  /** The item a listing line shows: the line without its "* " head and its "\n" tail. */
  function ItemOf(line: string): string
  {
    if |line| >= 3 then line[2..|line| - 1] else ""
  }

  lemma ItemLineRoundTrip(item: string)
    ensures ItemOf(ItemLine(item)) == item
    ensures ItemLine(item)[..2] == "* " && ItemLine(item)[|ItemLine(item)| - 1] == '\n'
  {
    assert ItemLine(item)[2..|ItemLine(item)| - 1] == item;
  }

  /** Everything a listing queues. */
  function ListingTrace(items: seq<string>): seq<Command>
  {
    seq(|items|, i requires 0 <= i < |items| => Print(ItemLine(items[i]))) + [Flush]
  }

  /** The lines of a listing show the items in order, and the flush comes last. */
  lemma ListingShowsItems(items: seq<string>)
    ensures var t := ListingTrace(items);
      && |t| == |items| + 1 && t[|items|] == Flush
      && (forall i :: 0 <= i < |items| ==> t[i].Print? && ItemOf(t[i].text) == items[i])
  {
    var t := ListingTrace(items);
    forall i | 0 <= i < |items|
      ensures t[i].Print? && ItemOf(t[i].text) == items[i]
    {
      ItemLineRoundTrip(items[i]);
    }
  }

  /** `listing` */
  method PrintListing(out: Stdout, items: seq<string>)
    modifies out
    ensures out.trace == old(out.trace) + ListingTrace(items)
  {
    ghost var start := out.trace;
    var i := 0;
    while i < |items|
      invariant 0 <= i <= |items|
      invariant out.trace == start + seq(i, k requires 0 <= k < i => Print(ItemLine(items[k])))
    {
      out.Queue(Print("* " + items[i] + "\n"));
      i := i + 1;
    }
    out.Queue(Flush);
  }
}
