/** The `pageRender` callback of `extractDataFromPDF` (src/utils/extract_data.ts): it rebuilds the
    lines of a PDF page from its text items. */
module PdfReflow {
  import opened Wrappers

  /** A text item: its vertical position (`transform[5]`) and its string. */
  datatype TextItem = TextItem(y: int, str: string)

  /** `lastY == y` where `lastY` starts out `undefined`: `undefined` equals no number. */
  predicate LooseEquals(lastY: Option<int>, y: int) {
    lastY == Some(y)
  }

  /** `!!lastY`: `undefined` and `0` are falsy. */
  predicate Truthy(lastY: Option<int>) {
    lastY.Some? && lastY.value != 0
  }

  /** Item `i` starts a new line: the previous item exists, its position is not 0, and it
      differs from this item's position. */
  predicate BreakBefore(items: seq<TextItem>, i: nat)
    requires i < |items|
  {
    i > 0 && items[i - 1].y != 0 && items[i - 1].y != items[i].y
  }

  /** What item `i` adds to the page text: a line break when it starts a new line, its string,
      and one space. */
  function Piece(items: seq<TextItem>, i: nat): string
    requires i < |items|
  {
    (if BreakBefore(items, i) then "\n" + items[i].str else items[i].str) + " "
  }

  /** The page text for `items`, piece after piece. */
  function Reflow(items: seq<TextItem>): string {
    if items == [] then [] else Reflow(items[..|items| - 1]) + Piece(items, |items| - 1)
  }

  /** The loop of `pageRender`: `lastY` is `None` until the first item is seen. */
  method PageRender(items: seq<TextItem>) returns (text: string)
    ensures text == Reflow(items)
  {
    var lastY: Option<int> := None;
    text := "";
    for k := 0 to |items|
      invariant text == Reflow(items[..k])
      invariant lastY == if k == 0 then None else Some(items[k - 1].y)
    {
      var item := items[k];
      ghost var before := text;
      if LooseEquals(lastY, item.y) || !Truthy(lastY) {
        text := text + item.str;
      } else {
        text := text + ("\n" + item.str);
      }
      text := text + " ";
      assert items[..k + 1][..k] == items[..k];
      assert Piece(items[..k + 1], k) == Piece(items, k);
      assert text == before + Piece(items, k);
      lastY := Some(item.y);
    }
    assert items[..|items|] == items;
  }

  /** The strings of all items, one after another. */
  function StrLength(items: seq<TextItem>): nat {
    if items == [] then 0 else StrLength(items[..|items| - 1]) + |items[|items| - 1].str|
  }

  /** How many items start a new line. */
  function BreakCount(items: seq<TextItem>): nat {
    if items == [] then 0
    else BreakCount(items[..|items| - 1]) + (if BreakBefore(items, |items| - 1) then 1 else 0)
  }

  /** The text holds every string, one space per item and one line break per new line. */
  lemma {:induction false} ReflowLength(items: seq<TextItem>)
    ensures |Reflow(items)| == StrLength(items) + |items| + BreakCount(items)
  {
    if items != [] {
      ReflowLength(items[..|items| - 1]);
    }
  }

  /** The text for a prefix of the items is a prefix of the text. */
  lemma {:induction false} ReflowPrefix(items: seq<TextItem>, n: nat)
    requires n <= |items|
    ensures Reflow(items[..n]) <= Reflow(items)
    decreases |items| - n
  {
    if n < |items| {
      var init := items[..|items| - 1];
      assert init[..n] == items[..n];
      ReflowPrefix(init, n);
      assert Reflow(items) == Reflow(init) + Piece(items, |items| - 1);
    } else {
      assert items[..n] == items;
    }
  }

  /** Item `i`'s piece lies in the text right after the pieces of the items before it: a line
      break exactly when it starts a new line, then its string, then exactly one space. */
  lemma PieceInPlace(items: seq<TextItem>, i: nat)
    requires i < |items|
    ensures var start := |Reflow(items[..i])|;
            var end := |Reflow(items[..i + 1])|;
            var text := Reflow(items);
            start <= end <= |text|
            && text[start..end] == Piece(items, i)
            && text[start..end] == (if BreakBefore(items, i) then "\n" else "") + items[i].str + " "
  {
    var pre := items[..i + 1];
    assert pre[..i] == items[..i];
    ReflowPrefix(items, i + 1);
    assert Reflow(pre) == Reflow(items[..i]) + Piece(items, i);
  }

  /** Items at 100, 100, 100, 85 with strings `Hel`, `lo`, ` World`, `Next`: every string is
      followed by a space, so the first line reads `Hel lo  World ` and the second `Next `. */
  lemma ReflowExample(items: seq<TextItem>)
    requires items == [TextItem(100, "Hel"), TextItem(100, "lo"), TextItem(100, " World"), TextItem(85, "Next")]
    ensures Reflow(items) == "Hel lo  World \nNext "
  {
    assert items[..0] == [];
    assert items[..1][..0] == [] && items[..2][..1] == items[..1];
    assert items[..3][..2] == items[..2] && items[..4][..3] == items[..3] && items[..4] == items;
    assert Reflow(items[..1]) == "Hel ";
    assert Reflow(items[..2]) == "Hel lo ";
    assert Reflow(items[..3]) == "Hel lo  World ";
  }

  /** A previous position of 0 counts as no previous line, so no break follows it. */
  lemma ZeroIsNoLine(items: seq<TextItem>)
    requires items == [TextItem(0, "a"), TextItem(5, "b")]
    ensures Reflow(items) == "a b "
  {
    assert items[..1][..0] == [] && items[..2][..1] == items[..1] && items[..2] == items;
    assert Reflow(items[..1]) == "a ";
  }
}
