/** The table of contents that `extractDataFromUrl` (src/utils/extract_data.ts) prepends to a page. */
module TableOfContents {
  import opened Strings
  import Seqs

  /** The digit of an `h1`..`h4` tag name. */
  type Level = l: int | 1 <= l <= 4 witness 1

  /** A heading element: its level and its text. */
  datatype Heading = Heading(level: Level, text: string)

  /** The contents of the `tocCounts` array: one counter per level. */
  type Counts = c: seq<nat> | |c| == 4 witness [0, 0, 0, 0]

  const Banner: string := "Table of Contents\n"
  const Footer: string := ". "

  /** The counter update for one heading of level `level`. */
  function Bump(c: Counts, level: Level): (r: Counts)
    ensures r[level - 1] == c[level - 1] + 1
    ensures forall j :: 0 <= j < level - 1 ==> r[j] == c[j]
    ensures forall j :: level <= j < 4 ==> r[j] == 0
  {
    seq(4, j requires 0 <= j < 4 => if j < level - 1 then c[j] else if j == level - 1 then c[j] + 1 else 0)
  }

  /** The counters after the headings `hs`, starting from `[0, 0, 0, 0]`. */
  function CountsAfter(hs: seq<Heading>): Counts {
    if hs == [] then [0, 0, 0, 0] else Bump(CountsAfter(hs[..|hs| - 1]), hs[|hs| - 1].level)
  }

  predicate IsPositive(x: nat) {
    x > 0
  }

  /** `tocCounts.slice(0, level).filter((x) => x > 0).join('-')`. */
  function TocNumber(c: Counts, level: Level): string {
    Join(Seqs.Map(NatToString, Seqs.Filter(IsPositive, c[..level])), '-')
  }

  /** One line of the table without its newline: the index, a space, the heading text with its
      first `.` turned into a space. */
  function Entry(c: Counts, h: Heading): string {
    TocNumber(c, h.level) + " " + ReplaceFirst(h.text, '.', ' ')
  }

  /** The entry of every heading, numbered with the counters just after it. */
  function Entries(hs: seq<Heading>): (es: seq<string>)
    ensures |es| == |hs|
  {
    seq(|hs|, k requires 0 <= k < |hs| => Entry(CountsAfter(hs[..k + 1]), hs[k]))
  }

  /** Every entry followed by a newline. */
  function Lines(es: seq<string>): string {
    if es == [] then [] else es[0] + "\n" + Lines(es[1..])
  }

  /** The whole table for the headings `hs`, in document order. */
  function Toc(hs: seq<Heading>): string {
    Banner + Lines(Entries(hs)) + Footer
  }

  lemma {:induction false} LinesSnoc(es: seq<string>, e: string)
    ensures Lines(es + [e]) == Lines(es) + (e + "\n")
  {
    if es != [] {
      assert (es + [e])[1..] == es[1..] + [e];
      LinesSnoc(es[1..], e);
    }
  }

  lemma LinesPrefixStep(es: seq<string>, k: nat)
    requires k < |es|
    ensures Lines(es[..k + 1]) == Lines(es[..k]) + (es[k] + "\n")
  {
    assert es[..k + 1] == es[..k] + [es[k]];
    LinesSnoc(es[..k], es[k]);
  }

  /** Appending one heading's line extends the table by that entry. */
  lemma TocStep(hs: seq<Heading>, k: nat)
    requires k < |hs|
    ensures Banner + Lines(Entries(hs)[..k + 1])
      == Banner + Lines(Entries(hs)[..k]) + (Entry(CountsAfter(hs[..k + 1]), hs[k]) + "\n")
  {
    var es := Entries(hs);
    LinesPrefixStep(es, k);
    var line := es[k] + "\n";
    assert Banner + (Lines(es[..k]) + line) == Banner + Lines(es[..k]) + line;
  }

  /** One heading's update of `tocCounts`: its own slot goes up by one, the deeper slots are
      reset. */
  method BumpCounts(counts: array<nat>, level: Level)
    requires counts.Length == 4
    modifies counts
    ensures counts[..] == Bump(old(counts[..]), level)
  {
    ghost var before: Counts := counts[..];
    counts[level - 1] := counts[level - 1] + 1;
    for i := level to counts.Length
      invariant forall j :: 0 <= j < 4 ==> counts[j] == (if j < i then Bump(before, level)[j] else before[j])
    {
      counts[i] := 0;
    }
  }

  /** The loop of src/utils/extract_data.ts over the headings, with its `tocCounts` array. */
  method BuildToc(headings: seq<Heading>) returns (toc: string)
    ensures toc == Toc(headings)
  {
    var counts := new nat[4](_ => 0);
    toc := Banner;
    var k := 0;
    while k < |headings|
      invariant 0 <= k <= |headings|
      invariant counts.Length == 4
      invariant counts[..] == CountsAfter(headings[..k])
      invariant toc == Banner + Lines(Entries(headings)[..k])
    {
      var h := headings[k];
      BumpCounts(counts, h.level);
      assert headings[..k + 1][..k] == headings[..k];
      assert counts[..] == CountsAfter(headings[..k + 1]);
      var headerText := ReplaceFirst(h.text, '.', ' ');
      var tocNumber := TocNumber(counts[..], h.level);
      var line := tocNumber + " " + headerText;
      TocStep(headings, k);
      toc := toc + (line + "\n");
      k := k + 1;
    }
    assert headings[..k] == headings;
    assert Entries(headings)[..k] == Entries(headings);
    toc := toc + Footer;
  }

  /** How many headings of level `level` follow the last heading shallower than `level` (or
      the start of the document) in `hs`: the position of the latest level-`level` heading
      among its siblings. */
  function SiblingCount(hs: seq<Heading>, level: Level): nat {
    if hs == [] then 0
    else
      var h := hs[|hs| - 1];
      if h.level < level then 0
      else SiblingCount(hs[..|hs| - 1], level) + (if h.level == level then 1 else 0)
  }

  /** Each counter holds the sibling number of the latest heading at its level. */
  lemma {:induction false} CountsAreSiblingCounts(hs: seq<Heading>, level: Level)
    ensures CountsAfter(hs)[level - 1] == SiblingCount(hs, level)
  {
    if hs != [] {
      CountsAreSiblingCounts(hs[..|hs| - 1], level);
    }
  }

  lemma {:induction false} FilterLast<T>(p: T -> bool, s: seq<T>)
    requires s != [] && p(s[|s| - 1])
    ensures Seqs.Filter(p, s) != []
    ensures Seqs.Filter(p, s)[|Seqs.Filter(p, s)| - 1] == s[|s| - 1]
  {
    if |s| > 1 {
      FilterLast(p, s[1..]);
    }
  }

  /** Decimal numbers joined by `-` split back into those numbers. */
  lemma SplitNumbers(ks: seq<nat>)
    requires ks != []
    ensures Split(Join(Seqs.Map(NatToString, ks), '-'), '-') == Seqs.Map(NatToString, ks)
  {
    var parts := Seqs.Map(NatToString, ks);
    forall i | 0 <= i < |parts| ensures '-' !in parts[i] {
      assert parts[i] == NatToString(ks[i]);
    }
    SplitJoin(parts, '-');
  }

  /** The index of a heading lists the positive counters of its level and the shallower ones,
      separated by `-`; its last component is the heading's own counter, which is at least 1. */
  lemma IndexEndsWithOwnCounter(hs: seq<Heading>)
    requires hs != []
    ensures var c := CountsAfter(hs);
            var level := hs[|hs| - 1].level;
            var parts := Split(TocNumber(c, level), '-');
            c[level - 1] >= 1
            && parts == Seqs.Map(NatToString, Seqs.Filter(IsPositive, c[..level]))
            && parts[|parts| - 1] == NatToString(c[level - 1])
  {
    var c := CountsAfter(hs);
    var level := hs[|hs| - 1].level;
    var kept := Seqs.Filter(IsPositive, c[..level]);
    FilterLast(IsPositive, c[..level]);
    SplitNumbers(kept);
  }

  /** No line break inside an entry whose heading text has none. */
  lemma EntryOneLine(c: Counts, h: Heading)
    requires '\n' !in h.text
    ensures '\n' !in Entry(c, h)
  {
    var parts := Seqs.Map(NatToString, Seqs.Filter(IsPositive, c[..h.level]));
    forall i | 0 <= i < |parts| ensures '\n' !in parts[i] {
      assert parts[i] == NatToString(Seqs.Filter(IsPositive, c[..h.level])[i]);
    }
    JoinAvoids(parts, '-', '\n');
    var t := ReplaceFirst(h.text, '.', ' ');
    assert forall k :: 0 <= k < |t| ==> t[k] != '\n';
  }

  /** Splitting at line breaks recovers the entries, then the lines of whatever follows. */
  lemma {:induction false} SplitLines(es: seq<string>, tail: string)
    requires forall i :: 0 <= i < |es| ==> '\n' !in es[i]
    ensures Split(Lines(es) + tail, '\n') == es + Split(tail, '\n')
  {
    if es == [] {
      assert Lines(es) + tail == tail;
    } else {
      SplitLines(es[1..], tail);
      assert Lines(es) + tail == es[0] + "\n" + (Lines(es[1..]) + tail);
      SplitAfterPrefix(es[0], Lines(es[1..]) + tail, '\n');
      assert [es[0]] + es[1..] == es;
    }
  }

  /** No heading text contains a line break. */
  predicate OneLineHeadings(hs: seq<Heading>) {
    forall k :: 0 <= k < |hs| ==> '\n' !in hs[k].text
  }

  /** No entry contains a line break when no heading text does. */
  lemma EntriesOneLine(hs: seq<Heading>)
    requires OneLineHeadings(hs)
    ensures forall i :: 0 <= i < |Entries(hs)| ==> '\n' !in Entries(hs)[i]
  {
    forall i | 0 <= i < |hs| ensures '\n' !in Entries(hs)[i] {
      EntryOneLine(CountsAfter(hs[..i + 1]), hs[i]);
    }
  }

  /** Read back line by line, the table is its title, one entry per heading in document order,
      and the closing `. `, as long as no heading text contains a line break. */
  lemma TocLines(hs: seq<Heading>)
    requires OneLineHeadings(hs)
    ensures Split(Toc(hs), '\n') == ["Table of Contents"] + Entries(hs) + [". "]
  {
    var es := Entries(hs);
    EntriesOneLine(hs);
    SplitLines(es, Footer);
    SplitWithoutSeparator(Footer, '\n');
    TocShape(Banner, Lines(es), Footer);
    SplitAfterPrefix("Table of Contents", Lines(es) + Footer, '\n');
  }

  lemma TocShape(banner: string, lines: string, footer: string)
    requires banner == "Table of Contents\n"
    ensures banner + lines + footer == "Table of Contents" + "\n" + (lines + footer)
  {
  }

  lemma SmallNumbers()
    ensures NatToString(1) == "1" && NatToString(2) == "2"
  {
    assert DigitChar(1) == '1' && DigitChar(2) == '2';
  }

  /** The counters after each heading of levels 1, 2, 2, 3, 1, 2. */
  lemma CountsExample(hs: seq<Heading>)
    requires |hs| == 6
    requires hs[0].level == 1 && hs[1].level == 2 && hs[2].level == 2
    requires hs[3].level == 3 && hs[4].level == 1 && hs[5].level == 2
    ensures CountsAfter(hs[..1]) == [1, 0, 0, 0]
    ensures CountsAfter(hs[..2]) == [1, 1, 0, 0]
    ensures CountsAfter(hs[..3]) == [1, 2, 0, 0]
    ensures CountsAfter(hs[..4]) == [1, 2, 1, 0]
    ensures CountsAfter(hs[..5]) == [2, 0, 0, 0]
    ensures CountsAfter(hs[..6]) == [2, 1, 0, 0]
  {
    assert hs[..1][..0] == [] && hs[..2][..1] == hs[..1] && hs[..3][..2] == hs[..2];
    assert hs[..4][..3] == hs[..3] && hs[..5][..4] == hs[..4] && hs[..6][..5] == hs[..5];
    assert hs[..1][0].level == 1;
    assert CountsAfter(hs[..1][..0]) == [0, 0, 0, 0];
  }

  lemma NumbersOfSingleCounts()
    ensures TocNumber([1, 0, 0, 0], 1) == "1"
    ensures TocNumber([2, 0, 0, 0], 1) == "2"
  {
    SmallNumbers();
    assert [1, 0, 0, 0][..1] == [1] && [2, 0, 0, 0][..1] == [2];
    assert Seqs.Filter(IsPositive, [1]) == [1];
    assert Seqs.Filter(IsPositive, [2]) == [2];
    assert Seqs.Map(NatToString, [1]) == ["1"];
    assert Seqs.Map(NatToString, [2]) == ["2"];
  }

  lemma NumbersOfFirstPairs()
    ensures TocNumber([1, 1, 0, 0], 2) == "1-1"
    ensures TocNumber([1, 2, 0, 0], 2) == "1-2"
  {
    SmallNumbers();
    assert [1, 1, 0, 0][..2] == [1, 1] && [1, 2, 0, 0][..2] == [1, 2];
    assert Seqs.Filter(IsPositive, [1, 1]) == [1, 1];
    assert Seqs.Filter(IsPositive, [1, 2]) == [1, 2];
    assert Seqs.Map(NatToString, [1, 1]) == ["1", "1"];
    assert Seqs.Map(NatToString, [1, 2]) == ["1", "2"];
    assert ["1", "1"][1..] == ["1"] && ["1", "2"][1..] == ["2"];
  }

  lemma NumberOfSecondPair()
    ensures TocNumber([2, 1, 0, 0], 2) == "2-1"
  {
    SmallNumbers();
    assert [2, 1, 0, 0][..2] == [2, 1];
    assert Seqs.Filter(IsPositive, [2, 1]) == [2, 1];
    assert Seqs.Map(NatToString, [2, 1]) == ["2", "1"];
    assert ["2", "1"][1..] == ["1"];
  }

  lemma NumberOfTripleCount()
    ensures TocNumber([1, 2, 1, 0], 3) == "1-2-1"
  {
    SmallNumbers();
    assert [1, 2, 1, 0][..3] == [1, 2, 1];
    assert Seqs.Filter(IsPositive, [1, 2, 1]) == [1, 2, 1];
    assert Seqs.Map(NatToString, [1, 2, 1]) == ["1", "2", "1"];
    assert ["1", "2", "1"][1..] == ["2", "1"] && ["2", "1"][1..] == ["1"];
    assert Join(["2", "1"], '-') == "2-1";
  }

  /** The levels 1, 2, 2, 3, 1, 2 are numbered 1, 1-1, 1-2, 1-2-1, 2, 2-1. */
  lemma NumberingExample(hs: seq<Heading>)
    requires |hs| == 6
    requires hs[0].level == 1 && hs[1].level == 2 && hs[2].level == 2
    requires hs[3].level == 3 && hs[4].level == 1 && hs[5].level == 2
    ensures TocNumber(CountsAfter(hs[..1]), 1) == "1"
    ensures TocNumber(CountsAfter(hs[..2]), 2) == "1-1"
    ensures TocNumber(CountsAfter(hs[..3]), 2) == "1-2"
    ensures TocNumber(CountsAfter(hs[..4]), 3) == "1-2-1"
    ensures TocNumber(CountsAfter(hs[..5]), 1) == "2"
    ensures TocNumber(CountsAfter(hs[..6]), 2) == "2-1"
  {
    CountsExample(hs);
    NumbersOfSingleCounts();
    NumbersOfFirstPairs();
    NumberOfSecondPair();
    NumberOfTripleCount();
  }
}
