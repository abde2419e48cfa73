/** The round trip of a whole file's text: what line ends do to it. A carriage return at the end
    of a line is read as half of a CR LF, and lost. */
module NotebookText {
  import opened Text
  import opened NotebookFormat
  import opened NotebookRoundTrip

  // ---- carriage returns ----

  predicate EndsCr(l: string) {
    l != "" && l[|l| - 1] == '\r'
  }

  function TrimCr(l: string): string {
    if EndsCr(l) then l[..|l| - 1] else l
  }

  function Trimmed(ls: seq<string>): seq<string> {
    Mapped(ls, TrimCr)
  }

  lemma UnixStep(a: char, s: string)
    ensures !(a == '\r' && s != "" && s[0] == '\n') ==> Unix([a] + s) == [a] + Unix(s)
    ensures Unix("\r\n" + s) == "\n" + Unix(s)
  {
    var all := [a] + s;
    assert all[1..] == s && ("\r\n" + s)[2..] == s;
    assert "\r\n" <= all ==> all[0] == '\r' && all[1] == s[0] == '\n';
  }

  lemma {:induction false} UnixLf(l: string, s: string)
    requires '\n' !in l
    ensures Unix(l + "\n" + s) == TrimCr(l) + "\n" + Unix(s)
  {
    hide Unix;
    if l == "" {
      UnixStep('\n', s);
      assert l + "\n" + s == "\n" + s;
    } else if l == "\r" {
      UnixStep('\n', s);
      assert l + "\n" + s == "\r\n" + s;
    } else {
      var rest := l[1..] + "\n" + s;
      assert l == [l[0]] + l[1..];
      assert l + "\n" + s == [l[0]] + rest;
      assert |l| > 1 ==> l[1] in l && rest[0] == l[1];
      UnixStep(l[0], rest);
      UnixLf(l[1..], s);
      assert TrimCr(l) == [l[0]] + TrimCr(l[1..]);
    }
  }

  /** Line ends are LF: each line but the last loses one carriage return at its end. */
  lemma {:induction false} UnixJoin(ls: seq<string>)
    requires ls != [] && OneLine(ls) && !EndsCr(ls[|ls| - 1])
    ensures Unix(Join(ls)) == Join(Trimmed(ls))
    decreases |ls|
  {
    if |ls| == 1 {
      UnixNoNewline(ls[0]);
      assert Trimmed(ls) == ls;
    } else {
      UnixJoin(ls[1..]);
      UnixLf(ls[0], Join(ls[1..]));
      assert Trimmed(ls)[1..] == Trimmed(ls[1..]);
    }
  }

  lemma TextLines(ls: seq<string>)
    requires ls != [] && OneLine(ls) && !EndsCr(ls[|ls| - 1])
    ensures Split(Unix(Join(ls))) == Trimmed(ls)
  {
    hide Unix, Join, Split, EndsCr;
    UnixJoin(ls);
    TrimmedIsLines(ls);
    SplitJoin(Trimmed(ls));
  }

  lemma TrimmedIsLines(ls: seq<string>)
    requires OneLine(ls)
    ensures OneLine(Trimmed(ls))
  {
    forall i | 0 <= i < |ls|
      ensures '\n' !in TrimCr(ls[i])
    {
      assert ls[i] in ls;
    }
  }

  // ---- the notebook a text is read as ----

  predicate NoCr(x: Cell) {
    forall l <- Split(x.source) :: !EndsCr(l)
  }

  /** The cell without the carriage returns that are lost. */
  function TrimCell(x: Cell): Cell {
    var lines := Trimmed(Split(x.source));
    x.(source := Join(lines), magics := MagicsOf(x.language, lines))
  }

  function TrimCells(cells: seq<Cell>): (r: seq<Cell>)
    ensures |r| == |cells| && forall i :: 0 <= i < |cells| ==> r[i] == TrimCell(cells[i])
  {
    seq(|cells|, i requires 0 <= i < |cells| => TrimCell(cells[i]))
  }

  lemma TrimSplit(s: string)
    ensures Split(Join(Trimmed(Split(s)))) == Trimmed(Split(s))
  {
    TrimmedIsLines(Split(s));
    SplitJoin(Trimmed(Split(s)));
  }

  lemma TrimCellOk(x: Cell, index: nat, c: Codec)
    requires CellOk(x, index, c)
    ensures CellOk(TrimCell(x), index, c)
  {
    TrimSplit(x.source);
  }

  lemma TrimPrefixed(p: string, ls: seq<string>)
    requires p != "" && !EndsCr(p)
    ensures Trimmed(Prefixed(p, ls)) == Prefixed(p, Trimmed(ls))
  {
    forall i | 0 <= i < |ls|
      ensures TrimCr(p + ls[i]) == p + TrimCr(ls[i])
    {
      if EndsCr(ls[i]) {
        assert (p + ls[i])[..|p + ls[i]| - 1] == p + ls[i][..|ls[i]| - 1];
      }
    }
  }

  lemma TrimConcat(a: seq<string>, b: seq<string>)
    ensures Trimmed(a + b) == Trimmed(a) + Trimmed(b)
  {
  }

  lemma TrimNothing(ls: seq<string>)
    requires forall l <- ls :: !EndsCr(l)
    ensures Trimmed(ls) == ls
  {
    assert forall i :: 0 <= i < |ls| ==> ls[i] in ls;
  }

  lemma TrimContent(x: Cell, index: nat, c: Codec)
    requires CellOk(x, index, c)
    ensures PrintContent(TrimCell(x)) == Trimmed(PrintContent(x))
  {
    hide Split, Join, MagicsOf;
    var lines := Split(x.source);
    TrimSplit(x.source);
    if x.kind == Markdown {
      TrimPrefixed("# ", lines);
    } else if x.cellMagic.Some? {
      var m := x.cellMagic.value;
      var head := "%%" + m;
      assert m[|m| - 1] in m && head[|head| - 1] == m[|m| - 1];
      TrimPrefixed(MAGIC_PREFIX, [head] + lines);
      TrimConcat([head], lines);
      TrimNothing([head]);
    }
  }

  /** JSON text has no carriage return: `json.dumps` escapes it. */
  ghost predicate PlainJson(c: Codec) {
    forall j: Json :: '\r' !in c.dumps(j)
  }

  lemma {:induction false} SplitKeepsOut(s: string)
    requires '\r' !in s
    ensures forall l <- Split(s) :: '\r' !in l
  {
    if s == "" {
    } else {
      assert s[0] in s;
      SplitKeepsOut(s[1..]);
    }
  }

  lemma TrimMeta(j: Json, c: Codec)
    requires PlainJson(c)
    ensures Trimmed(PrintMeta(j, c)) == PrintMeta(j, c)
  {
    hide Split;
    SplitKeepsOut(c.dumps(j));
    TrimPrefixed(META_PREFIX, Split(c.dumps(j)));
    TrimNothing(Split(c.dumps(j)));
  }

  lemma TrimBlock(k: BlockKind, content: seq<string>)
    ensures Trimmed(PrintBlock(k, content)) == PrintBlock(k, Trimmed(content))
  {
    var l := MarkerLine(k, 20);
    assert l[|l| - 1] == '*';
    hide MarkerLine;
    TrimNothing([l, ""]);
    TrimNothing([""]);
    TrimConcat([l, ""] + content, [""]);
    TrimConcat([l, ""], content);
  }

  lemma TrimPrintCell(x: Cell, index: nat, c: Codec)
    requires CellOk(x, index, c) && PlainJson(c)
    ensures Trimmed(PrintCell(x, c)) == PrintCell(TrimCell(x), c)
  {
    hide PrintBlock, PrintContent, PrintMeta;
    var k := BlockKindOf(x.kind);
    TrimContent(x, index, c);
    TrimBlock(k, PrintContent(x));
    TrimMeta(x.meta, c);
    TrimBlock(MetadataBlock, PrintMeta(x.meta, c));
    TrimConcat(PrintBlock(k, PrintContent(x)),
               if x.kind == Markdown then [] else PrintBlock(MetadataBlock, PrintMeta(x.meta, c)));
  }

  lemma {:induction false} TrimPrintCells(cells: seq<Cell>, index: nat, c: Codec)
    requires PlainJson(c) && forall i :: 0 <= i < |cells| ==> CellOk(cells[i], index + i, c)
    ensures Trimmed(PrintCells(cells, c)) == PrintCells(TrimCells(cells), c)
    decreases cells
  {
    hide PrintCell, TrimCell, CellOk;
    if cells == [] {
    } else {
      TrimPrintCell(cells[0], index, c);
      TrimPrintCells(cells[1..], index + 1, c);
      TrimConcat(PrintCell(cells[0], c), PrintCells(cells[1..], c));
      assert TrimCells(cells)[1..] == TrimCells(cells[1..]);
    }
  }

  function TrimNotebook(nb: Notebook): Notebook {
    Notebook(nb.meta, TrimCells(nb.cells))
  }

  lemma TrimPrintLines(nb: Notebook, c: Codec)
    requires PlainJson(c) && AllOk(nb.cells, c)
    ensures Trimmed(PrintLines(nb, c)) == PrintLines(TrimNotebook(nb), c)
  {
    hide PrintBlock, PrintMeta, PrintCells, CellOk;
    var top, body, tail := [HEADER, ""], PrintBlock(MetadataBlock, PrintMeta(nb.meta, c)), PrintCells(nb.cells, c);
    TrimMeta(nb.meta, c);
    TrimBlock(MetadataBlock, PrintMeta(nb.meta, c));
    TrimPrintCells(nb.cells, 0, c);
    TrimNothing(top);
    TrimConcat(top, body);
    TrimConcat(top + body, tail);
  }

  lemma {:induction false} CellsEndEmpty(cells: seq<Cell>, c: Codec)
    ensures PrintCells(cells, c) != [] ==> PrintCells(cells, c)[|PrintCells(cells, c)| - 1] == ""
    decreases cells
  {
    hide PrintContent, PrintMeta, MarkerLine;
    if cells == [] {
    } else {
      CellsEndEmpty(cells[1..], c);
    }
  }

  /** A printed file ends in a line end. */
  lemma EndsEmpty(nb: Notebook, c: Codec)
    ensures PrintLines(nb, c) != [] && PrintLines(nb, c)[|PrintLines(nb, c)| - 1] == ""
  {
    hide PrintMeta, PrintCells, MarkerLine;
    CellsEndEmpty(nb.cells, c);
  }

  /** The text of a printed notebook is read as the lines of the trimmed one. */
  lemma TextMeansTrimmed(nb: Notebook, c: Codec)
    requires PlainJson(c) && AllOk(nb.cells, c)
    ensures ParseLines(Split(Unix(Join(PrintLines(nb, c)))), c) == ParseLines(PrintLines(TrimNotebook(nb), c), c)
  {
    hide PrintLines, ParseLines, Split, Unix, Join, CellOk, Trimmed;
    PrintsLines(nb, c);
    EndsEmpty(nb, c);
    TextLines(PrintLines(nb, c));
    TrimPrintLines(nb, c);
  }

  // ---- reading never makes a source longer ----

  function Total(ls: seq<string>): nat {
    if ls == [] then 0 else |ls[0]| + 1 + Total(ls[1..])
  }

  lemma {:induction false} JoinTotal(ls: seq<string>)
    requires ls != []
    ensures |Join(ls)| + 1 == Total(ls)
    decreases |ls|
  {
    if |ls| == 1 {
    } else {
      JoinTotal(ls[1..]);
    }
  }

  lemma {:induction false} TotalPointwise(a: seq<string>, b: seq<string>)
    requires |a| == |b| && forall i :: 0 <= i < |a| ==> |a[i]| <= |b[i]|
    ensures Total(a) <= Total(b)
    ensures (exists i :: 0 <= i < |a| && |a[i]| < |b[i]|) ==> Total(a) < Total(b)
  {
    if a == [] {
    } else {
      TotalPointwise(a[1..], b[1..]);
      if i :| 0 <= i < |a| && |a[i]| < |b[i]| {
        assert i > 0 ==> |a[1..][i - 1]| < |b[1..][i - 1]|;
      }
    }
  }

  lemma {:induction false} TotalWithout(ls: seq<string>, i: nat)
    requires i < |ls|
    ensures Total(ls[..i] + ls[i + 1..]) < Total(ls)
  {
    if i == 0 {
      assert ls[..0] + ls[1..] == ls[1..];
    } else {
      TotalWithout(ls[1..], i - 1);
      assert (ls[..i] + ls[i + 1..])[1..] == ls[1..][..i - 1] + ls[1..][i..];
    }
  }

  lemma JoinNotLonger(a: seq<string>, b: seq<string>)
    requires b != [] && Total(a) <= Total(b)
    ensures |Join(a)| <= |Join(b)|
  {
    JoinTotal(b);
    if a != [] {
      JoinTotal(a);
    }
  }

  lemma DecodedNotLonger(lines: seq<string>)
    ensures Total(WithoutMagic(Decoded(lines))) <= Total(lines)
  {
    var decoded := Decoded(lines);
    assert |decoded| == |lines| && forall i :: 0 <= i < |lines| ==> |decoded[i]| <= |lines[i]|;
    TotalPointwise(decoded, lines);
    var i := FirstNonBlank(decoded);
    if FirstMagic(decoded).Some? {
      TotalWithout(decoded, i);
    }
  }

  lemma ReadBackNotLonger(x: Cell, index: nat, c: Codec)
    requires CellOk(x, index, c)
    ensures |ReadBack(x, index, 0, c).source| <= |x.source|
  {
    hide Split, Join, Decoded, FirstMagic, WithoutMagic, MagicsOf;
    if x.kind == Markdown {
      MarkdownReadsBack(x, index, c);
    } else if x.cellMagic.Some? {
      MagicReadsBack(x, index, c);
    } else {
      DecodedNotLonger(Split(x.source));
      JoinNotLonger(WithoutMagic(Decoded(Split(x.source))), Split(x.source));
      JoinSplit(x.source);
    }
  }

  lemma TrimShortens(x: Cell)
    ensures NoCr(x) ==> Join(Trimmed(Split(x.source))) == x.source
    ensures !NoCr(x) ==> |TrimCell(x).source| < |x.source|
  {
    hide Split, Join;
    var lines := Split(x.source);
    JoinSplit(x.source);
    if NoCr(x) {
      TrimNothing(lines);
    } else {
      var l :| l in lines && EndsCr(l);
      var i :| 0 <= i < |lines| && lines[i] == l;
      assert |Trimmed(lines)[i]| < |lines[i]|;
      TotalPointwise(Trimmed(lines), lines);
      JoinTotal(lines);
      JoinTotal(Trimmed(lines));
    }
  }

  /** A text read as a notebook has no line taken for a marker. */
  lemma NothingFaked(nb: Notebook, c: Codec)
    requires c.Lawful() && PlainJson(c) && AllOk(nb.cells, c)
    requires IsReadBack(ParseLines(PrintLines(TrimNotebook(nb), c), c), nb)
    ensures Fakes(TrimCells(nb.cells), ParseMarker) == 0
    ensures AllOk(TrimCells(nb.cells), c)
  {
    hide PrintLines, ParseLines, CellOk, TrimCell, Fakes, Weight, IsReadBack;
    forall i | 0 <= i < |nb.cells|
      ensures CellOk(TrimCell(nb.cells[i]), i, c)
    {
      TrimCellOk(nb.cells[i], i, c);
    }
    SameWeight(nb.cells, c);
    if Fakes(TrimCells(nb.cells), ParseMarker) > 0 {
      FakesAreCaught(TrimNotebook(nb), nb, c);
    }
  }

  /** What a text is read as has no carriage return at the end of a source line. */
  lemma ReadBackHasNoCr(nb: Notebook, c: Codec)
    requires c.Lawful() && PlainJson(c) && AllOk(nb.cells, c)
    requires IsReadBack(ParseLines(PrintLines(TrimNotebook(nb), c), c), nb)
    ensures forall x <- nb.cells :: NoCr(x)
  {
    hide PrintLines, ParseLines, CellOk, NoCr, TrimCell, ReadBack, Fakes, NoMarker, BackCells;
    var trimmed := TrimNotebook(nb);
    NothingFaked(nb, c);
    FakesIff(trimmed.cells, ParseMarker);
    forall i | 0 <= i < |nb.cells|
      ensures trimmed.cells[i].meta.Object?
    {
      OkHasObject(trimmed.cells[i], i, c);
    }
    var no := NoFakesRead(trimmed, c);
    BackCellsAre(trimmed.cells, 0, no, c);
    forall i | 0 <= i < |nb.cells|
      ensures NoCr(nb.cells[i])
    {
      assert Unnumbered(nb.cells[i]) == ReadBack(trimmed.cells[i], i, 0, c);
      ReadBackNotLonger(trimmed.cells[i], i, c);
      TrimShortens(nb.cells[i]);
    }
  }

  lemma {:induction false} SameWeight(cells: seq<Cell>, c: Codec)
    ensures Weight(TrimCells(cells)) == Weight(cells)
  {
    if cells == [] {
    } else {
      SameWeight(cells[..|cells| - 1], c);
      assert TrimCells(cells)[..|cells| - 1] == TrimCells(cells[..|cells| - 1]);
    }
  }

  lemma TrimSame(nb: Notebook, c: Codec)
    requires AllOk(nb.cells, c) && forall x <- nb.cells :: NoCr(x)
    ensures TrimNotebook(nb) == nb
  {
    hide NoCr, Split, Join;
    forall i | 0 <= i < |nb.cells|
      ensures TrimCell(nb.cells[i]) == nb.cells[i]
    {
      var x := nb.cells[i];
      assert x in nb.cells && CellOk(x, i, c);
      TrimShortens(x);
      TrimSplit(x.source);
    }
    assert TrimCells(nb.cells) == nb.cells;
  }

  /** Printing a notebook and parsing the text gives it back without a warning exactly when every
      cell can be told from the format and no source line ends in a carriage return. Written with
      CR LF line ends, the text keeps those too. */
  lemma TextRoundTripIff(nb: Notebook, c: Codec)
    requires c.Lawful() && PlainJson(c) && AllOk(nb.cells, c)
    ensures IsReadBack(ParseLines(Split(Unix(Join(PrintLines(nb, c)))), c), nb)
       <==> forall x <- nb.cells :: Readable(x) && NoCr(x)
    ensures IsReadBack(ParseLines(Split(Unix(JoinCrLf(PrintLines(nb, c)))), c), nb)
       <==> forall x <- nb.cells :: Readable(x)
  {
    hide PrintLines, ParseLines, Split, Unix, Join, CellOk, Readable, NoCr, IsReadBack, TrimNotebook;
    var lines := PrintLines(nb, c);
    PrintsLines(nb, c);
    SplitJoin(lines);
    CrLfReadsAsLf(lines);
    RoundTripIff(nb, c);
    TextMeansTrimmed(nb, c);
    if forall x <- nb.cells :: NoCr(x) {
      TrimSame(nb, c);
    } else if IsReadBack(ParseLines(PrintLines(TrimNotebook(nb), c), c), nb) {
      ReadBackHasNoCr(nb, c);
    }
  }

  /** A markdown cell whose one line ends in a carriage return is not read back. */
  lemma TrailingCrIsLost(c: Codec) returns (nb: Notebook)
    requires c.Lawful() && PlainJson(c)
    ensures |nb.cells| == 1 && nb.cells[0].source == "a\r" && AllOk(nb.cells, c)
    ensures !IsReadBack(ParseLines(Split(Unix(Join(PrintLines(nb, c)))), c), nb)
  {
    var x := Cell(0, Markdown, "markdown", "a\r", 0, c.empty, [], None);
    nb := Notebook(c.empty, [x]);
    assert !NoCr(x) by {
      SplitOne("a\r");
      assert "a\r" in Split("a\r");
    }
    assert x in nb.cells;
    hide IsReadBack, ParseLines, Split, Unix, Join, PrintLines, NoCr, Readable;
    TextRoundTripIff(nb, c);
  }
}
