/** Printing a notebook in the documented block format and reading it back
    (notebook.py, lines 3 to 17 and 82 to 203). */
module NotebookRoundTrip {
  import opened Text
  import opened NotebookFormat

  // ---- printing ----

  function PrintBlock(k: BlockKind, content: seq<string>): seq<string> {
    [MarkerLine(k, 20), ""] + content + [""]
  }

  function Prefixed(p: string, ls: seq<string>): (r: seq<string>)
    ensures |r| == |ls| && forall i :: 0 <= i < |ls| ==> r[i] == p + ls[i]
  {
    seq(|ls|, i requires 0 <= i < |ls| => p + ls[i])
  }

  /** The lines of a cell between its marker and the next. */
  function PrintContent(x: Cell): seq<string> {
    if x.kind == Markdown then Prefixed("# ", Split(x.source))
    else if x.cellMagic.Some? then Prefixed(MAGIC_PREFIX, ["%%" + x.cellMagic.value] + Split(x.source))
    else Split(x.source)
  }

  function PrintMeta(j: Json, c: Codec): seq<string> {
    Prefixed(META_PREFIX, Split(c.dumps(j)))
  }

  function BlockKindOf(k: CellKind): BlockKind {
    match k
    case Code => CellBlock
    case Parameters => ParametersBlock
    case Markdown => MarkdownBlock
  }

  function PrintCell(x: Cell, c: Codec): seq<string> {
    PrintBlock(BlockKindOf(x.kind), PrintContent(x))
    + if x.kind == Markdown then [] else PrintBlock(MetadataBlock, PrintMeta(x.meta, c))
  }

  function PrintCells(cells: seq<Cell>, c: Codec): seq<string> {
    if cells == [] then [] else PrintCell(cells[0], c) + PrintCells(cells[1..], c)
  }

  /** A notebook in the documented format. */
  function PrintLines(nb: Notebook, c: Codec): seq<string> {
    [HEADER, ""] + PrintBlock(MetadataBlock, PrintMeta(nb.meta, c)) + PrintCells(nb.cells, c)
  }

  // ---- counting markers ----

  function Markers(lines: seq<string>, mark: Marking): nat {
    if lines == [] then 0 else (if mark(lines[0]).Some? then 1 else 0) + Markers(lines[1..], mark)
  }

  lemma {:induction false} MarkersConcat(a: seq<string>, b: seq<string>, mark: Marking)
    ensures Markers(a + b, mark) == Markers(a, mark) + Markers(b, mark)
  {
    if a == [] {
      assert a + b == b;
    } else {
      MarkersConcat(a[1..], b, mark);
      assert (a + b)[1..] == a[1..] + b;
    }
  }

  lemma {:induction false} MarkersAreBlocks(lines: seq<string>, no: nat, mark: Marking)
    ensures |Cut(lines, no, mark).blocks| == Markers(lines, mark)
  {
    if lines == [] {
    } else {
      MarkersAreBlocks(lines[1..], no + 1, mark);
    }
  }

  lemma {:induction false} NoMarkersIff(lines: seq<string>, mark: Marking)
    ensures Markers(lines, mark) == 0 <==> forall l <- lines :: mark(l).None?
  {
    if lines == [] {
    } else {
      NoMarkersIff(lines[1..], mark);
      assert forall l :: l in lines <==> l == lines[0] || l in lines[1..];
    }
  }

  lemma {:induction false} CutConcat(a: seq<string>, b: seq<string>, no: nat, mark: Marking)
    requires b == [] || mark(b[0]).Some?
    ensures Cut(a + b, no, mark)
         == Cuts(Cut(a, no, mark).before, Cut(a, no, mark).blocks + Cut(b, no + |a|, mark).blocks)
  {
    if a == [] {
      assert a + b == b;
    } else {
      CutConcat(a[1..], b, no + 1, mark);
      assert (a + b)[1..] == a[1..] + b;
    }
  }

  /** How many blocks a notebook with these cells has, its own metadata aside. */
  function Weight(cells: seq<Cell>): nat {
    if cells == [] then 0
    else Weight(cells[..|cells| - 1]) + if cells[|cells| - 1].kind == Markdown then 1 else 2
  }

  function Missing(s: State): nat
    requires s.Running?
  {
    if s.pending then 1 else 0
  }

  lemma StepTally(s: State, b: Block, c: Codec)
    requires Fine(s) && s.Running?
    ensures var t := Step(s, b, false, c);
            t.Running? ==> && s.warnings <= t.warnings
                           && (t.warnings == [] ==> Weight(t.cells) == Weight(s.cells) + 1 - Missing(s) + Missing(t))
  {
    hide Meta, MetaOf, MetaWarnings, Clash, Content;
    var t := Step(s, b, false, c);
    if IsMeta(b) {
      if s.pending && t.Running? {
        var k := |s.cells| - 1;
        assert t.cells[..k] == s.cells[..k];
      }
    } else {
      assert t.cells[..|s.cells|] == s.cells;
    }
  }

  lemma {:induction false} RunTally(s: State, blocks: seq<Block>, c: Codec)
    requires Fine(s) && s.Running?
    ensures var r := Run(s, blocks, false, c);
            r.Running? ==> && s.warnings <= r.warnings
                           && (r.warnings == [] ==>
                                 Weight(s.cells) - Missing(s) + |blocks| == Weight(r.cells) - Missing(r))
    decreases blocks
  {
    hide Step, Weight, Missing;
    if blocks == [] {
    } else {
      var next := Step(s, blocks[0], false, c);
      StepFine(s, blocks[0], false, c);
      StepTally(s, blocks[0], c);
      if next.Raised? {
        StaysRaised(blocks[1..], c);
      } else {
        RunTally(next, blocks[1..], c);
      }
    }
  }

  lemma BlocksTally(blocks: seq<Block>, warnings: seq<Warning>, c: Codec)
    requires FromBlocks(blocks, warnings, c).Parsed? && FromBlocks(blocks, warnings, c).warnings == []
    ensures |blocks| == 1 + Weight(FromBlocks(blocks, warnings, c).nb.cells)
    ensures warnings == []
  {
    hide Meta, MetaOf, MetaWarnings, Content;
    var s := Running(c.empty, [], false, warnings);
    RunFine(s, blocks, true, c);
    StepFine(s, blocks[0], true, c);
    var next := Step(s, blocks[0], true, c);
    if next.Raised? {
      StaysRaised(blocks[1..], c);
    } else {
      RunTally(next, blocks[1..], c);
    }
  }

  /** A file that parses without a warning has one block for itself, one for each markdown
      cell and two for each code cell. */
  lemma QuietTally(lines: seq<string>, c: Codec)
    requires ParseLines(lines, c).Parsed? && ParseLines(lines, c).warnings == []
    ensures |FileBlocks(lines)| == 1 + Weight(ParseLines(lines, c).nb.cells)
  {
    hide FromBlocks, FileBlocks, FileWarnings;
    BlocksTally(FileBlocks(lines), FileWarnings(lines), c);
  }

  // ---- reading back what was printed ----

  /** What any parsed cell is: its index is its place, its language follows from its magic. */
  predicate CellOk(x: Cell, index: nat, c: Codec) {
    && x.index == index && x.meta.Object?
    && if x.kind == Markdown then x == Cell(index, Markdown, "markdown", x.source, x.line, c.empty, [], None)
       else && x.language == LanguageOf(x.cellMagic) && x.magics == MagicsOf(x.language, Split(x.source))
            && (x.cellMagic.Some? ==> IsMagicName(x.cellMagic.value))
  }

  predicate IsMagicName(n: string) {
    n != "" && Lower(n) == n && forall ch <- n :: IsWordChar(ch)
  }

  /** Python source that would be read as lines under a MAGIC prefix. */
  predicate LooksPrefixed(lines: seq<string>) {
    && (forall l <- lines :: !Blank(l) ==> StartsMagic(l))
    && (exists l <- lines :: MAGIC_PREFIX <= l || Strip(l) == "# MAGIC")
  }

  /** Python source is not taken for magics. */
  predicate SourceIsPlain(x: Cell) {
    x.kind != Markdown && x.cellMagic == None ==>
      !LooksPrefixed(Split(x.source)) && FirstMagic(Split(x.source)) == None
  }

  /** The metadata says sparksql only of an %%sql cell, and nothing else of one. */
  predicate LanguageAgrees(x: Cell) {
    x.kind != Markdown && x.meta.Object? ==>
      && (x.meta.language == Named("sparksql") ==> x.cellMagic == Some("sql"))
      && (x.cellMagic == Some("sql") ==> x.meta.language == Unset || x.meta.language == Named("sparksql"))
  }

  /** The printed cell can be told from the format around it. */
  predicate Readable(x: Cell) {
    NoMarker(PrintContent(x), ParseMarker) && SourceIsPlain(x) && LanguageAgrees(x)
  }

  /** The cell that the printed lines of x give, numbered from its marker. */
  function ReadBack(x: Cell, index: nat, line: nat, c: Codec): Cell {
    if x.kind == Markdown then MarkdownCell(PrintContent(x), index, line, c)
    else CodeCell(x.kind, PrintContent(x), index, line, x.meta)
  }

  function Unnumbered(x: Cell): Cell {
    x.(line := 0)
  }

  lemma MarkdownReadsBack(x: Cell, index: nat, c: Codec)
    requires CellOk(x, index, c) && x.kind == Markdown
    ensures ReadBack(x, index, 0, c) == Unnumbered(x)
  {
    assert Mapped(Prefixed("# ", Split(x.source)), Unmarked) == Split(x.source);
    JoinSplit(x.source);
  }

  lemma {:induction false} StripNothing(l: string)
    requires l != "" && !IsSpace(l[0]) && !IsSpace(l[|l| - 1])
    ensures Strip(l) == l
  {
  }

  lemma {:induction false} StripKeeps(l: string, i: nat)
    requires i < |l| && !IsSpace(l[i])
    ensures Strip(l) != ""
    decreases |l|
  {
    if IsSpace(l[0]) {
      StripKeeps(l[1..], i - 1);
    } else if IsSpace(l[|l| - 1]) {
      StripKeeps(l[..|l| - 1], i);
    }
  }

  lemma {:induction false} WordPrefixAll(n: string)
    requires forall ch <- n :: IsWordChar(ch)
    ensures WordPrefix(n) == n
  {
    if n == "" {
    } else {
      WordPrefixAll(n[1..]);
      assert n == [n[0]] + n[1..];
    }
  }

  lemma MagicDecoded(head: string, lines: seq<string>)
    ensures Decoded(Prefixed(MAGIC_PREFIX, [head] + lines)) == [head] + lines
  {
    var content := Prefixed(MAGIC_PREFIX, [head] + lines);
    forall l <- content
      ensures !Blank(l) && StartsMagic(l) && MAGIC_PREFIX <= l
    {
      StripKeeps(l, 0);
    }
    assert content[0] in content;
    forall i | 0 <= i < |content|
      ensures Unprefixed(content[i]) == ([head] + lines)[i]
    {
    }
    assert Mapped(content, Unprefixed) == [head] + lines;
  }

  lemma MagicFound(m: string, lines: seq<string>)
    requires IsMagicName(m)
    ensures FirstMagic(["%%" + m] + lines) == Some(m)
    ensures WithoutMagic(["%%" + m] + lines) == lines
  {
    var head := "%%" + m;
    assert head[|head| - 1] == m[|m| - 1] && m[|m| - 1] in m && m[0] in m;
    StripNothing(head);
    assert head[2..] == m;
    WordPrefixAll(m);
    assert FirstNonBlank([head] + lines) == 0;
    assert ([head] + lines)[1..] == lines;
  }

  /** A cell with a language magic always reads back. */
  lemma MagicReadsBack(x: Cell, index: nat, c: Codec)
    requires CellOk(x, index, c) && x.kind != Markdown && x.cellMagic.Some?
    ensures ReadBack(x, index, 0, c) == Unnumbered(x)
  {
    hide Decoded, FirstMagic, WithoutMagic, Prefixed, Split, Join;
    MagicDecoded("%%" + x.cellMagic.value, Split(x.source));
    MagicFound(x.cellMagic.value, Split(x.source));
    JoinSplit(x.source);
  }

  lemma PrefixedIsDecoded(lines: seq<string>)
    requires LooksPrefixed(lines)
    ensures AllMagic(lines) && Decoded(lines) != lines
  {
    var i :| 0 <= i < |lines| && (MAGIC_PREFIX <= lines[i] || Strip(lines[i]) == "# MAGIC");
    if MAGIC_PREFIX <= lines[i] {
      StripKeeps(lines[i], 0);
    }
    assert !Blank(lines[i]);
    assert AllMagic(lines);
    assert StartsMagic(lines[i]);
    assert Decoded(lines)[i] == Unprefixed(lines[i]) != lines[i];
  }

  lemma NotPrefixedIsVerbatim(lines: seq<string>)
    requires !LooksPrefixed(lines)
    ensures Decoded(lines) == lines
  {
    if AllMagic(lines) {
      assert forall i :: 0 <= i < |lines| ==> lines[i] in lines;
      assert forall i :: 0 <= i < |lines| ==> Unprefixed(lines[i]) == lines[i];
    }
  }

  /** Python source without a language magic reads back unless it looks like a magic. */
  lemma PlainReadsBackIff(x: Cell, index: nat, c: Codec)
    requires CellOk(x, index, c) && x.kind != Markdown && x.cellMagic == None
    ensures ReadBack(x, index, 0, c) == Unnumbered(x)
       <==> !LooksPrefixed(Split(x.source)) && FirstMagic(Split(x.source)) == None
  {
    hide FirstMagic, LooksPrefixed, Split, Join, Decoded;
    var lines := Split(x.source);
    JoinSplit(x.source);
    if LooksPrefixed(lines) {
      PrefixedIsDecoded(lines);
      var decoded := Decoded(lines);
      if FirstMagic(decoded) == None && Join(decoded) == x.source {
        NoNewlines(lines);
        SplitJoin(decoded);
        assert false;
      }
    } else {
      NotPrefixedIsVerbatim(lines);
    }
  }

  lemma NoNewlines(lines: seq<string>)
    requires forall l <- lines :: '\n' !in l
    ensures |Decoded(lines)| == |lines| && forall l <- Decoded(lines) :: '\n' !in l
  {
    forall i | 0 <= i < |lines|
      ensures '\n' !in Unprefixed(lines[i])
    {
      assert lines[i] in lines;
    }
  }

  lemma MetaLinePrinted(l: string)
    ensures MetaLineOf(META_PREFIX + l) == JsonText(l)
  {
  }

  lemma {:induction false} PayloadOfJson(lines: seq<string>, ls: seq<string>, n: nat)
    requires n <= |lines| == |ls| && forall i :: 0 <= i < n ==> MetaLineOf(lines[i]) == JsonText(ls[i])
    ensures Payload(lines, n) == ls[..n]
  {
    hide MetaLineOf;
    if n == 0 {
    } else {
      PayloadOfJson(lines, ls, n - 1);
      assert ls[..n] == ls[..n - 1] + [ls[n - 1]];
    }
  }

  lemma {:induction false} NothingForeign(lines: seq<string>, n: nat, no: nat)
    requires n <= |lines| && forall i :: 0 <= i < n ==> MetaLineOf(lines[i]).JsonText?
    ensures NonMeta(lines, n, no) == []
  {
    hide MetaLineOf;
    if n == 0 {
    } else {
      NothingForeign(lines, n - 1, no);
    }
  }

  lemma MetaReadsBack(j: Json, no: nat, c: Codec)
    requires c.Lawful()
    ensures Meta(PrintMeta(j, c), c) == Value(j) && MetaOf(PrintMeta(j, c), c) == j
    ensures MetaWarnings(PrintMeta(j, c), no, c) == []
  {
    hide MetaLineOf;
    var ls := Split(c.dumps(j));
    forall i | 0 <= i < |ls|
      ensures MetaLineOf(PrintMeta(j, c)[i]) == JsonText(ls[i])
    {
      MetaLinePrinted(ls[i]);
    }
    PayloadOfJson(PrintMeta(j, c), ls, |ls|);
    NothingForeign(PrintMeta(j, c), |ls|, no);
    assert ls[..|ls|] == ls;
    JoinSplit(c.dumps(j));
  }

  // ---- the blocks of a printed notebook ----

  /** What printing needs of the marker syntax. */
  ghost predicate Reads(mark: Marking) {
    && (forall k: BlockKind :: mark(MarkerLine(k, 20)) == Some(Marker(k, 20)))
    && (forall l: string :: mark(META_PREFIX + l).None?)
    && mark("").None? && mark(HEADER).None?
  }

  lemma MetaIsNoMarker(l: string)
    ensures ParseMarker(META_PREFIX + l).None?
  {
    var raw := META_PREFIX + l;
    assert raw[2] == 'M' && raw[3] == 'E' && raw[6] == ' ';
    assert MarkerPrefix(MetadataBlock)[6] == 'D' && MarkerPrefix(CellBlock)[2] == 'C';
    assert MarkerPrefix(MarkdownBlock)[3] == 'A' && MarkerPrefix(ParametersBlock)[2] == 'P';
  }

  lemma HeaderIsNoMarker()
    ensures ParseMarker("").None? && ParseMarker(HEADER).None?
  {
    assert HEADER[2] == 'F';
    assert forall k: BlockKind :: MarkerPrefix(k)[2] != 'F';
  }

  lemma ParseMarkerReads()
    ensures Reads(ParseMarker)
  {
    forall k: BlockKind
      ensures ParseMarker(MarkerLine(k, 20)) == Some(Marker(k, 20))
    {
      MarkerInverts(k, 20);
    }
    forall l: string
      ensures ParseMarker(META_PREFIX + l).None?
    {
      MetaIsNoMarker(l);
    }
    HeaderIsNoMarker();
  }

  // ---- two files that cannot be parsed ----

  /** A code cell "1" with one line of metadata. */
  function CellFile(json: string): seq<string> {
    [MarkerLine(CellBlock, 20), "1", MarkerLine(MetadataBlock, 20), META_PREFIX + json]
  }

  /** A file that is one line of metadata of its own. */
  function MetaFile(json: string): seq<string> {
    [MarkerLine(MetadataBlock, 20), META_PREFIX + json]
  }

  lemma OneIsNoMarker()
    ensures ParseMarker("1").None?
  {
  }

  lemma CutMarked(k: BlockKind, content: seq<string>, no: nat, mark: Marking)
    requires Reads(mark) && NoMarker(content, mark)
    ensures Cut([MarkerLine(k, 20)] + content, no, mark)
         == Cuts([], [Block(Marker(k, 20), MarkerLine(k, 20), no, content)])
  {
    hide MarkerLine;
    CutNothing(content, no + 1, mark);
    assert ([MarkerLine(k, 20)] + content)[1..] == content;
  }

  lemma CutMetaFile(json: string, no: nat, mark: Marking)
    requires Reads(mark)
    ensures Cut(MetaFile(json), no, mark)
         == Cuts([], [Block(Marker(MetadataBlock, 20), MarkerLine(MetadataBlock, 20), no, [META_PREFIX + json])])
  {
    hide MarkerLine;
    CutMarked(MetadataBlock, [META_PREFIX + json], no, mark);
    assert MetaFile(json) == [MarkerLine(MetadataBlock, 20)] + [META_PREFIX + json];
  }

  lemma CutCellFile(json: string, mark: Marking)
    requires Reads(mark) && mark("1").None?
    ensures Cut(CellFile(json), 1, mark).blocks
         == [Block(Marker(CellBlock, 20), MarkerLine(CellBlock, 20), 1, ["1"])] + Cut(MetaFile(json), 3, mark).blocks
  {
    hide MarkerLine;
    CutMarked(CellBlock, ["1"], 1, mark);
    CutConcat([MarkerLine(CellBlock, 20)] + ["1"], MetaFile(json), 1, mark);
    assert CellFile(json) == [MarkerLine(CellBlock, 20)] + ["1"] + MetaFile(json);
  }

  lemma MetaOfLine(json: string, c: Codec)
    ensures Meta(Content([META_PREFIX + json]), c) == c.loads(json)
  {
    var lines := [META_PREFIX + json];
    assert META_PREFIX + json != "";
    MetaLinePrinted(json);
    assert Payload(lines, 1) == Payload(lines, 0) + [json] == [json];
  }

  /** A cell whose metadata is JSON but no dictionary, such as the list []. */
  lemma ListIsRefused(json: string, c: Codec)
    requires c.loads(json).Value? && c.loads(json).json.NotObject?
    ensures ParseLines(CellFile(json), c).Exception?
  {
    hide FromBlocks, Cut, Reads, Meta;
    ParseMarkerReads();
    OneIsNoMarker();
    CutCellFile(json, ParseMarker);
    CutMetaFile(json, 3, ParseMarker);
    MetaOfLine(json, c);
    RefusedIff(CellFile(json), c);
    assert RaisesAt(FileBlocks(CellFile(json)), 1, c);
  }

  /** A file whose own metadata `json.loads` fails on, such as an integer of 4301 digits. */
  lemma HugeIntegerIsRefused(json: string, c: Codec)
    requires c.loads(json).Fails?
    ensures ParseLines(MetaFile(json), c).Exception?
  {
    hide FromBlocks, Cut, Reads, Meta;
    ParseMarkerReads();
    CutMetaFile(json, 1, ParseMarker);
    MetaOfLine(json, c);
    RefusedIff(MetaFile(json), c);
    assert RaisesAt(FileBlocks(MetaFile(json)), 0, c);
  }

  predicate NoMarker(lines: seq<string>, mark: Marking) {
    forall l <- lines :: mark(l).None?
  }

  function PrintedBlock(k: BlockKind, content: seq<string>, no: nat): Block {
    Block(Marker(k, 20), MarkerLine(k, 20), no, [""] + content + [""])
  }

  lemma ContentOfPrinted(content: seq<string>)
    ensures Content([""] + content + [""]) == content
  {
    assert ([""] + content + [""])[1..] == content + [""];
  }

  lemma {:induction false} CutNothing(lines: seq<string>, no: nat, mark: Marking)
    requires NoMarker(lines, mark)
    ensures Cut(lines, no, mark) == Cuts(lines, [])
  {
    if lines == [] {
    } else {
      assert lines[0] in lines;
      CutNothing(lines[1..], no + 1, mark);
    }
  }

  lemma CutPrinted(k: BlockKind, content: seq<string>, no: nat, mark: Marking)
    requires Reads(mark) && NoMarker(content, mark)
    ensures Cut(PrintBlock(k, content), no, mark) == Cuts([], [PrintedBlock(k, content, no)])
  {
    hide MarkerLine;
    var all, raw := PrintBlock(k, content), [""] + content + [""];
    assert all == [MarkerLine(k, 20)] + raw;
    CutNothing(raw, no + 1, mark);
    assert all[1..] == raw;
  }

  lemma MetaHasNoMarker(j: Json, c: Codec, mark: Marking)
    requires Reads(mark)
    ensures NoMarker(PrintMeta(j, c), mark)
  {
  }

  function CellBlocks(x: Cell, no: nat, c: Codec): seq<Block> {
    [PrintedBlock(BlockKindOf(x.kind), PrintContent(x), no)]
    + if x.kind == Markdown then []
      else [PrintedBlock(MetadataBlock, PrintMeta(x.meta, c), no + |PrintContent(x)| + 3)]
  }

  lemma CutCell(x: Cell, no: nat, c: Codec, mark: Marking)
    requires Reads(mark) && NoMarker(PrintContent(x), mark)
    ensures Cut(PrintCell(x, c), no, mark) == Cuts([], CellBlocks(x, no, c))
  {
    hide MarkerLine, PrintContent, PrintMeta, Cut;
    var k := BlockKindOf(x.kind);
    CutPrinted(k, PrintContent(x), no, mark);
    if x.kind == Markdown {
      assert PrintCell(x, c) == PrintBlock(k, PrintContent(x));
    } else {
      MetaHasNoMarker(x.meta, c, mark);
      CutPrinted(MetadataBlock, PrintMeta(x.meta, c), no + |PrintContent(x)| + 3, mark);
      CutConcat(PrintBlock(k, PrintContent(x)), PrintBlock(MetadataBlock, PrintMeta(x.meta, c)), no, mark);
    }
  }

  /** A printed cell gives one cell, and a warning when its metadata contradicts its magic. */
  lemma CellRuns(s: State, x: Cell, no: nat, c: Codec)
    requires c.Lawful() && Fine(s) && s.Running? && !s.pending && x.meta.Object?
    ensures Run(s, CellBlocks(x, no, c), false, c) == AfterCell(s, x, no, c)
  {
    hide MarkerLine, PrintContent, PrintMeta, Cut, Meta, MetaOf, MetaWarnings, CodeCell, MarkdownCell, Content, Clash;
    ContentOfPrinted(PrintContent(x));
    var b := PrintedBlock(BlockKindOf(x.kind), PrintContent(x), no);
    StepFine(s, b, false, c);
    var t := Step(s, b, false, c);
    var cell := CellOf(b, |s.cells|, c);
    assert t == Running(s.meta, s.cells + [cell], IsCode(b), s.warnings);
    if x.kind != Markdown {
      MetaReadsBack(x.meta, no + |PrintContent(x)| + 3, c);
      ContentOfPrinted(PrintMeta(x.meta, c));
      var m := PrintedBlock(MetadataBlock, PrintMeta(x.meta, c), no + |PrintContent(x)| + 3);
      StepFine(t, m, false, c);
      WithMeta(x.kind, PrintContent(x), |s.cells|, no, c.empty, x.meta);
      assert (s.cells + [cell])[..|s.cells|] == s.cells;
      assert t.warnings + [] == t.warnings;
      assert Step(t, m, false, c) == AfterCell(s, x, no, c);
      RunTwo(s, b, m, c);
    }
  }

  lemma RunTwo(s: State, b: Block, m: Block, c: Codec)
    requires Fine(s) && Fine(Step(s, b, false, c))
    ensures Run(s, [b] + [m], false, c) == Step(Step(s, b, false, c), m, false, c)
  {
    hide Step;
    var t := Step(s, b, false, c);
    StepFine(t, m, false, c);
    assert ([b] + [m])[1..] == [m] && [m][1..] == [];
    assert Run(t, [m], false, c) == Run(Step(t, m, false, c), [], false, c);
  }

  lemma WithMeta(kind: CellKind, content: seq<string>, index: nat, line: nat, m0: Json, m1: Json)
    ensures CodeCell(kind, content, index, line, m0).(meta := m1) == CodeCell(kind, content, index, line, m1)
    ensures CodeCell(kind, content, index, line, m0).line == line
  {
  }

  function AfterCell(s: State, x: Cell, no: nat, c: Codec): State
    requires s.Running?
  {
    var back := ReadBack(x, |s.cells|, no, c);
    Running(s.meta, s.cells + [back], false,
            s.warnings
            + if x.kind != Markdown && x.meta.Object? then Clash(back.cellMagic, x.meta.language, no) else [])
  }

  lemma {:induction false} RunConcat(s: State, a: seq<Block>, b: seq<Block>, c: Codec)
    requires Fine(s)
    ensures Fine(Run(s, a, false, c))
    ensures Run(s, a + b, false, c) == Run(Run(s, a, false, c), b, false, c)
    decreases a
  {
    hide Step;
    if a == [] {
      assert a + b == b;
    } else {
      StepFine(s, a[0], false, c);
      RunConcat(Step(s, a[0], false, c), a[1..], b, c);
      assert (a + b)[1..] == a[1..] + b;
    }
  }

  /** The state after the printed cells; `no` is the line of the first. */
  function AfterCells(s: State, cells: seq<Cell>, no: nat, c: Codec): State
    requires s.Running?
    decreases cells
  {
    if cells == [] then s
    else AfterCells(AfterCell(s, cells[0], no, c), cells[1..], no + |PrintCell(cells[0], c)|, c)
  }

  lemma {:induction false} CellsRun(s: State, cells: seq<Cell>, no: nat, c: Codec, mark: Marking)
    requires c.Lawful() && Reads(mark) && Fine(s) && s.Running? && !s.pending
    requires forall x <- cells :: x.meta.Object? && NoMarker(PrintContent(x), mark)
    ensures Cut(PrintCells(cells, c), no, mark).before == []
    ensures Run(s, Cut(PrintCells(cells, c), no, mark).blocks, false, c) == AfterCells(s, cells, no, c)
    decreases cells
  {
    hide PrintCell, CellBlocks, AfterCell, Reads, Cut, NoMarker, Step;
    if cells == [] {
      CutEmpty(no, mark);
    } else {
      var x, rest := cells[0], cells[1..];
      var next := no + |PrintCell(x, c)|;
      assert x in cells;
      CutCell(x, no, c, mark);
      StartsWithMarker(rest, c, mark);
      CutConcat(PrintCell(x, c), PrintCells(rest, c), no, mark);
      CellRuns(s, x, no, c);
      RunConcat(s, CellBlocks(x, no, c), Cut(PrintCells(rest, c), next, mark).blocks, c);
      AfterCellFine(s, x, no, c);
      CellsRun(AfterCell(s, x, no, c), rest, next, c, mark);
    }
  }

  lemma CutEmpty(no: nat, mark: Marking)
    ensures Cut([], no, mark) == Cuts([], [])
  {
  }

  lemma AfterCellFine(s: State, x: Cell, no: nat, c: Codec)
    requires s.Running?
    ensures Fine(AfterCell(s, x, no, c)) && AfterCell(s, x, no, c).Running? && !AfterCell(s, x, no, c).pending
  {
  }

  lemma StartsWithMarker(cells: seq<Cell>, c: Codec, mark: Marking)
    requires Reads(mark)
    ensures PrintCells(cells, c) == [] || mark(PrintCells(cells, c)[0]).Some?
  {
    hide MarkerLine;
    if cells != [] {
      assert PrintCells(cells, c)[0] == MarkerLine(BlockKindOf(cells[0].kind), 20);
    }
  }

  /** The metadata of the cell names the language that its printed lines give. */
  predicate Quiet(x: Cell, c: Codec) {
    x.kind != Markdown && x.meta.Object? ==> Clash(ReadBack(x, 0, 0, c).cellMagic, x.meta.language, 0) == []
  }

  /** Cells as printed and read back, whatever their lines. */
  predicate SameCells(a: seq<Cell>, b: seq<Cell>) {
    |a| == |b| && forall i :: 0 <= i < |a| ==> Unnumbered(a[i]) == Unnumbered(b[i])
  }

  lemma ReadBackNumbered(x: Cell, index: nat, line: nat, c: Codec)
    ensures Unnumbered(ReadBack(x, index, line, c)) == ReadBack(x, index, 0, c)
    ensures ReadBack(x, index, line, c).cellMagic == ReadBack(x, 0, 0, c).cellMagic
  {
  }

  function BackCells(cells: seq<Cell>, index: nat, no: nat, c: Codec): seq<Cell> {
    if cells == [] then []
    else [ReadBack(cells[0], index, no, c)] + BackCells(cells[1..], index + 1, no + |PrintCell(cells[0], c)|, c)
  }

  function CellWarnings(x: Cell, no: nat, c: Codec): seq<Warning> {
    if x.kind != Markdown && x.meta.Object? then Clash(ReadBack(x, 0, 0, c).cellMagic, x.meta.language, no) else []
  }

  function BackWarnings(cells: seq<Cell>, no: nat, c: Codec): seq<Warning> {
    if cells == [] then []
    else CellWarnings(cells[0], no, c) + BackWarnings(cells[1..], no + |PrintCell(cells[0], c)|, c)
  }

  lemma {:induction false} AfterCellsAre(s: State, cells: seq<Cell>, no: nat, c: Codec)
    requires s.Running? && !s.pending
    ensures AfterCells(s, cells, no, c)
         == Running(s.meta, s.cells + BackCells(cells, |s.cells|, no, c), false,
                    s.warnings + BackWarnings(cells, no, c))
    decreases cells
  {
    hide ReadBack, PrintCell, Clash;
    if cells == [] {
      assert s.cells + [] == s.cells && s.warnings + [] == s.warnings;
    } else {
      var x, rest := cells[0], cells[1..];
      var next := no + |PrintCell(x, c)|;
      ReadBackNumbered(x, |s.cells|, no, c);
      var back := ReadBack(x, |s.cells|, no, c);
      assert AfterCell(s, x, no, c) == Running(s.meta, s.cells + [back], false, s.warnings + CellWarnings(x, no, c));
      AfterCellsAre(AfterCell(s, x, no, c), rest, next, c);
      Reassociate(s.cells, [back], BackCells(rest, |s.cells| + 1, next, c));
      Reassociate(s.warnings, CellWarnings(x, no, c), BackWarnings(rest, next, c));
    }
  }

  lemma Reassociate<T>(a: seq<T>, b: seq<T>, c: seq<T>)
    ensures (a + b) + c == a + (b + c)
  {
  }

  lemma {:induction false} BackCellsAre(cells: seq<Cell>, index: nat, no: nat, c: Codec)
    ensures |BackCells(cells, index, no, c)| == |cells|
    ensures forall i :: 0 <= i < |cells| ==>
            Unnumbered(BackCells(cells, index, no, c)[i]) == ReadBack(cells[i], index + i, 0, c)
    decreases cells
  {
    hide ReadBack, PrintCell, Unnumbered;
    if cells == [] {
    } else {
      ReadBackNumbered(cells[0], index, no, c);
      BackCellsAre(cells[1..], index + 1, no + |PrintCell(cells[0], c)|, c);
    }
  }

  lemma {:induction false} QuietIff(cells: seq<Cell>, no: nat, c: Codec)
    ensures BackWarnings(cells, no, c) == [] <==> forall x <- cells :: Quiet(x, c)
    decreases cells
  {
    hide ReadBack, PrintCell;
    if cells == [] {
    } else {
      QuietIff(cells[1..], no + |PrintCell(cells[0], c)|, c);
      assert CellWarnings(cells[0], no, c) == [] <==> Quiet(cells[0], c);
      assert forall y :: y in cells <==> y == cells[0] || y in cells[1..];
    }
  }

  // ---- the printed file ----

  lemma PrintedCut(nb: Notebook, c: Codec, mark: Marking) returns (no: nat)
    requires Reads(mark) && forall x <- nb.cells :: NoMarker(PrintContent(x), mark)
    ensures Cut(PrintLines(nb, c), 1, mark).blocks
         == [PrintedBlock(MetadataBlock, PrintMeta(nb.meta, c), 3)] + Cut(PrintCells(nb.cells, c), no, mark).blocks
  {
    hide PrintMeta, PrintCells, MarkerLine, Cut;
    var top, body, tail := [HEADER, ""], PrintBlock(MetadataBlock, PrintMeta(nb.meta, c)), PrintCells(nb.cells, c);
    no := 3 + |body|;
    CutNothing(top, 1, mark);
    MetaHasNoMarker(nb.meta, c, mark);
    CutPrinted(MetadataBlock, PrintMeta(nb.meta, c), 3, mark);
    StartsWithMarker(nb.cells, c, mark);
    CutConcat(top, body, 1, mark);
    CutConcat(top + body, tail, 1, mark);
  }

  /** The block of the file's own metadata leaves just that. */
  lemma FileMetaRuns(j: Json, rest: seq<Block>, c: Codec)
    requires c.Lawful()
    ensures Run(Running(c.empty, [], false, []), [PrintedBlock(MetadataBlock, PrintMeta(j, c), 3)] + rest, true, c)
         == Run(Running(j, [], false, []), rest, false, c)
  {
    hide PrintMeta, MarkerLine, Meta, MetaOf, MetaWarnings, Content;
    var first, s0 := PrintedBlock(MetadataBlock, PrintMeta(j, c), 3), Running(c.empty, [], false, []);
    ContentOfPrinted(PrintMeta(j, c));
    MetaReadsBack(j, 3, c);
    assert Step(s0, first, true, c) == Running(j, [], false, []);
    assert ([first] + rest)[1..] == rest;
  }

  lemma PrintedOutcome(nb: Notebook, c: Codec, mark: Marking) returns (no: nat)
    requires c.Lawful() && Reads(mark)
    requires forall x <- nb.cells :: x.meta.Object? && NoMarker(PrintContent(x), mark)
    ensures FromBlocks(Cut(PrintLines(nb, c), 1, mark).blocks, [], c)
         == Parsed(Notebook(nb.meta, BackCells(nb.cells, 0, no, c)), BackWarnings(nb.cells, no, c))
  {
    hide PrintedBlock, PrintLines, PrintMeta, PrintCells, Cut, Reads, NoMarker, Step, Run;
    no := PrintedCut(nb, c, mark);
    var first := PrintedBlock(MetadataBlock, PrintMeta(nb.meta, c), 3);
    var rest := Cut(PrintCells(nb.cells, c), no, mark).blocks;
    var s0, s1 := Running(c.empty, [], false, []), Running(nb.meta, [], false, []);
    RunFine(s0, [first] + rest, true, c);
    FileMetaRuns(nb.meta, rest, c);
    CellsRun(s1, nb.cells, no, c, mark);
    AfterCellsAre(s1, nb.cells, no, c);
    assert [] + BackCells(nb.cells, 0, no, c) == BackCells(nb.cells, 0, no, c);
    assert [] + BackWarnings(nb.cells, no, c) == BackWarnings(nb.cells, no, c);
    assert ([first] + rest)[0] == first && first.marker.kind == MetadataBlock by {
      FirstIsMeta(nb.meta, c);
    }
  }

  lemma FirstIsMeta(j: Json, c: Codec)
    ensures IsMeta(PrintedBlock(MetadataBlock, PrintMeta(j, c), 3))
  {
  }

  predicate Twenty(lines: seq<string>, mark: Marking) {
    forall l <- lines :: mark(l).Some? ==> mark(l).value.stars == 20
  }

  lemma {:induction false} TwentyQuiet(lines: seq<string>, n: nat, mark: Marking)
    requires n <= |lines| && Twenty(lines, mark)
    ensures StarWarnings(lines, n, mark) == []
  {
    if n == 0 {
    } else {
      TwentyQuiet(lines, n - 1, mark);
      assert lines[n - 1] in lines;
    }
  }

  lemma BlockIsTwenty(k: BlockKind, content: seq<string>, mark: Marking)
    requires Reads(mark) && NoMarker(content, mark)
    ensures Twenty(PrintBlock(k, content), mark)
  {
    hide MarkerLine;
    forall l <- PrintBlock(k, content)
      ensures mark(l).Some? ==> mark(l).value.stars == 20
    {
      assert l == MarkerLine(k, 20) || l == "" || l in content;
    }
  }

  lemma TwentyConcat(a: seq<string>, b: seq<string>, mark: Marking)
    requires Twenty(a, mark) && Twenty(b, mark)
    ensures Twenty(a + b, mark)
  {
  }

  lemma {:induction false} CellsAreTwenty(cells: seq<Cell>, c: Codec, mark: Marking)
    requires Reads(mark) && forall x <- cells :: NoMarker(PrintContent(x), mark)
    ensures Twenty(PrintCells(cells, c), mark)
    decreases cells
  {
    hide Reads, NoMarker, Twenty, PrintContent, PrintMeta, PrintBlock;
    if cells == [] {
      TwentyEmpty(mark);
    } else {
      var x := cells[0];
      assert x in cells;
      BlockIsTwenty(BlockKindOf(x.kind), PrintContent(x), mark);
      MetaHasNoMarker(x.meta, c, mark);
      BlockIsTwenty(MetadataBlock, PrintMeta(x.meta, c), mark);
      TwentyEmpty(mark);
      TwentyConcat(PrintBlock(BlockKindOf(x.kind), PrintContent(x)),
                   if x.kind == Markdown then [] else PrintBlock(MetadataBlock, PrintMeta(x.meta, c)), mark);
      CellsAreTwenty(cells[1..], c, mark);
      TwentyConcat(PrintCell(x, c), PrintCells(cells[1..], c), mark);
    }
  }

  lemma TwentyEmpty(mark: Marking)
    ensures Twenty([], mark)
  {
  }

  lemma PrintedQuiet(nb: Notebook, c: Codec, mark: Marking)
    requires Reads(mark) && forall x <- nb.cells :: NoMarker(PrintContent(x), mark)
    ensures StarWarnings(PrintLines(nb, c), |PrintLines(nb, c)|, mark) == []
  {
    hide PrintMeta, PrintCells, PrintBlock;
    MetaHasNoMarker(nb.meta, c, mark);
    BlockIsTwenty(MetadataBlock, PrintMeta(nb.meta, c), mark);
    CellsAreTwenty(nb.cells, c, mark);
    TwentyConcat([HEADER, ""], PrintBlock(MetadataBlock, PrintMeta(nb.meta, c)), mark);
    TwentyConcat([HEADER, ""] + PrintBlock(MetadataBlock, PrintMeta(nb.meta, c)), PrintCells(nb.cells, c), mark);
    TwentyQuiet(PrintLines(nb, c), |PrintLines(nb, c)|, mark);
  }

  /** Marker lines inside the printed cells. */
  function Fakes(cells: seq<Cell>, mark: Marking): nat {
    if cells == [] then 0 else Markers(PrintContent(cells[0]), mark) + Fakes(cells[1..], mark)
  }

  lemma {:induction false} FakesIff(cells: seq<Cell>, mark: Marking)
    ensures Fakes(cells, mark) == 0 <==> forall x <- cells :: NoMarker(PrintContent(x), mark)
  {
    hide PrintContent;
    if cells == [] {
    } else {
      NoMarkersIff(PrintContent(cells[0]), mark);
      FakesIff(cells[1..], mark);
      assert forall y :: y in cells <==> y == cells[0] || y in cells[1..];
    }
  }

  lemma {:induction false} WeightFront(cells: seq<Cell>)
    requires cells != []
    ensures Weight(cells) == (if cells[0].kind == Markdown then 1 else 2) + Weight(cells[1..])
  {
    if |cells| <= 1 {
    } else {
      WeightFront(cells[..|cells| - 1]);
      assert cells[..|cells| - 1][1..] == cells[1..][..|cells| - 2];
    }
  }

  lemma {:induction false} WeightSame(a: seq<Cell>, b: seq<Cell>)
    requires SameCells(a, b)
    ensures Weight(a) == Weight(b)
  {
    if a == [] {
    } else {
      assert a[|a| - 1].kind == Unnumbered(a[|a| - 1]).kind;
      WeightSame(a[..|a| - 1], b[..|b| - 1]);
    }
  }

  lemma BlockMarkers(k: BlockKind, content: seq<string>, mark: Marking)
    requires Reads(mark)
    ensures Markers(PrintBlock(k, content), mark) == 1 + Markers(content, mark)
  {
    hide MarkerLine;
    MarkersConcat([MarkerLine(k, 20), ""] + content, [""], mark);
    MarkersConcat([MarkerLine(k, 20), ""], content, mark);
    assert [MarkerLine(k, 20), ""][1..] == [""];
  }

  lemma {:induction false} CellsMarkers(cells: seq<Cell>, c: Codec, mark: Marking)
    requires Reads(mark)
    ensures Markers(PrintCells(cells, c), mark) == Weight(cells) + Fakes(cells, mark)
    decreases cells
  {
    hide Reads, PrintContent, PrintMeta, PrintBlock, NoMarker;
    if cells == [] {
    } else {
      var x, rest := cells[0], cells[1..];
      var k := BlockKindOf(x.kind);
      var own := if x.kind == Markdown then [] else PrintBlock(MetadataBlock, PrintMeta(x.meta, c));
      BlockMarkers(k, PrintContent(x), mark);
      MetaMarkers(x.meta, c, mark);
      MarkersConcat(PrintBlock(k, PrintContent(x)), own, mark);
      MarkersConcat(PrintCell(x, c), PrintCells(rest, c), mark);
      CellsMarkers(rest, c, mark);
      WeightFront(cells);
    }
  }

  lemma MetaMarkers(j: Json, c: Codec, mark: Marking)
    requires Reads(mark)
    ensures Markers(PrintBlock(MetadataBlock, PrintMeta(j, c)), mark) == 1
  {
    hide PrintMeta;
    MetaHasNoMarker(j, c, mark);
    NoMarkersIff(PrintMeta(j, c), mark);
    BlockMarkers(MetadataBlock, PrintMeta(j, c), mark);
  }

  lemma PrintedMarkers(nb: Notebook, c: Codec, mark: Marking)
    requires Reads(mark)
    ensures |Cut(PrintLines(nb, c), 1, mark).blocks| == 1 + Weight(nb.cells) + Fakes(nb.cells, mark)
  {
    hide PrintMeta, PrintCells, PrintBlock, Cut;
    var top, body, tail := [HEADER, ""], PrintBlock(MetadataBlock, PrintMeta(nb.meta, c)), PrintCells(nb.cells, c);
    MarkersAreBlocks(PrintLines(nb, c), 1, mark);
    MarkersConcat(top + body, tail, mark);
    MarkersConcat(top, body, mark);
    NoMarkersIff(top, mark);
    MetaMarkers(nb.meta, c, mark);
    CellsMarkers(nb.cells, c, mark);
  }

  // ---- the round trip ----

  /** The outcome is this notebook, without a warning; line numbers aside. */
  predicate IsReadBack(r: Outcome, nb: Notebook) {
    r.Parsed? && r.warnings == [] && r.nb.meta == nb.meta && SameCells(r.nb.cells, nb.cells)
  }

  lemma CellReadsBackIff(x: Cell, index: nat, c: Codec)
    requires CellOk(x, index, c)
    ensures ReadBack(x, index, 0, c) == Unnumbered(x) <==> SourceIsPlain(x)
    ensures ReadBack(x, index, 0, c) == Unnumbered(x) ==> (Quiet(x, c) <==> LanguageAgrees(x))
  {
    hide ReadBack, Split, FirstMagic, LooksPrefixed, Prefixed, Join;
    ReadBackNumbered(x, index, 0, c);
    if x.kind == Markdown {
      MarkdownReadsBack(x, index, c);
    } else if x.cellMagic.Some? {
      MagicReadsBack(x, index, c);
    } else {
      PlainReadsBackIff(x, index, c);
    }
  }

  lemma CellsReadBackIff(cells: seq<Cell>, no: nat, c: Codec)
    requires forall i :: 0 <= i < |cells| ==> CellOk(cells[i], i, c)
    ensures BackWarnings(cells, no, c) == [] && SameCells(BackCells(cells, 0, no, c), cells)
       <==> forall x <- cells :: SourceIsPlain(x) && LanguageAgrees(x)
  {
    hide ReadBack, Unnumbered, CellOk, SourceIsPlain, LanguageAgrees, Quiet, BackCells, BackWarnings;
    BackCellsAre(cells, 0, no, c);
    QuietIff(cells, no, c);
    forall i | 0 <= i < |cells|
      ensures ReadBack(cells[i], i, 0, c) == Unnumbered(cells[i]) <==> SourceIsPlain(cells[i])
      ensures SourceIsPlain(cells[i]) ==> (Quiet(cells[i], c) <==> LanguageAgrees(cells[i]))
    {
      CellReadsBackIff(cells[i], i, c);
    }
    assert forall x :: x in cells <==> exists i :: 0 <= i < |cells| && cells[i] == x;
    assert forall i :: 0 <= i < |cells| ==> cells[i] in cells;
  }

  lemma OkHasObject(x: Cell, index: nat, c: Codec)
    requires CellOk(x, index, c)
    ensures x.meta.Object?
  {
  }

  /** Markers inside the printed cells show: no notebook with cells of the same kinds is read. */
  lemma FakesAreCaught(nb: Notebook, like: Notebook, c: Codec)
    requires Fakes(nb.cells, ParseMarker) > 0 && Weight(nb.cells) == Weight(like.cells)
    ensures !IsReadBack(ParseLines(PrintLines(nb, c), c), like)
  {
    hide ParseLines, PrintLines, Unnumbered, Cut, Weight;
    var lines := PrintLines(nb, c);
    ParseMarkerReads();
    PrintedMarkers(nb, c, ParseMarker);
    var r := ParseLines(lines, c);
    if r.Parsed? && r.warnings == [] {
      QuietTally(lines, c);
      if SameCells(r.nb.cells, like.cells) {
        WeightSame(r.nb.cells, like.cells);
      }
    }
  }

  lemma NoFakesRead(nb: Notebook, c: Codec) returns (no: nat)
    requires c.Lawful() && forall x <- nb.cells :: x.meta.Object? && NoMarker(PrintContent(x), ParseMarker)
    ensures ParseLines(PrintLines(nb, c), c)
         == Parsed(Notebook(nb.meta, BackCells(nb.cells, 0, no, c)), BackWarnings(nb.cells, no, c))
  {
    hide PrintContent, Cut, FromBlocks, StarWarnings, PrintBlock, PrintCells, PrintMeta;
    var lines := PrintLines(nb, c);
    ParseMarkerReads();
    PrintedQuiet(nb, c, ParseMarker);
    no := PrintedOutcome(nb, c, ParseMarker);
    assert lines[0] == HEADER;
    assert FileWarnings(lines) == [];
  }

  /** Printing a notebook and parsing the lines gives it back without a warning exactly when
      no printed line is taken for a marker or a magic, and every cell's metadata agrees with
      its magic. */
  lemma RoundTripIff(nb: Notebook, c: Codec)
    requires c.Lawful() && forall i :: 0 <= i < |nb.cells| ==> CellOk(nb.cells[i], i, c)
    ensures IsReadBack(ParseLines(PrintLines(nb, c), c), nb) <==> forall x <- nb.cells :: Readable(x)
  {
    hide PrintLines, ParseLines, BackCells, BackWarnings, CellOk;
    hide SourceIsPlain, LanguageAgrees, Fakes, SameCells, NoMarker;
    FakesIff(nb.cells, ParseMarker);
    if Fakes(nb.cells, ParseMarker) == 0 {
      forall x <- nb.cells
        ensures x.meta.Object?
      {
        var i :| 0 <= i < |nb.cells| && nb.cells[i] == x;
        OkHasObject(x, i, c);
      }
      var no := NoFakesRead(nb, c);
      CellsReadBackIff(nb.cells, no, c);
    } else {
      FakesAreCaught(nb, nb, c);
    }
  }

  predicate OneLine(lines: seq<string>) {
    forall l <- lines :: '\n' !in l
  }

  lemma ContentIsLines(x: Cell, index: nat, c: Codec)
    requires CellOk(x, index, c)
    ensures OneLine(PrintContent(x)) && OneLine(PrintMeta(x.meta, c))
  {
    if x.kind != Markdown && x.cellMagic.Some? {
      assert forall ch <- x.cellMagic.value :: ch != '\n';
    }
  }

  lemma BlockIsLines(k: BlockKind, content: seq<string>)
    requires OneLine(content)
    ensures OneLine(PrintBlock(k, content))
  {
  }

  lemma {:induction false} CellsAreLines(cells: seq<Cell>, index: nat, c: Codec)
    requires forall i :: 0 <= i < |cells| ==> CellOk(cells[i], index + i, c)
    ensures OneLine(PrintCells(cells, c))
    decreases cells
  {
    hide CellOk, PrintContent, PrintMeta, PrintBlock;
    if cells == [] {
    } else {
      ContentIsLines(cells[0], index, c);
      BlockIsLines(BlockKindOf(cells[0].kind), PrintContent(cells[0]));
      BlockIsLines(MetadataBlock, PrintMeta(cells[0].meta, c));
      CellsAreLines(cells[1..], index + 1, c);
    }
  }

  lemma PrintsLines(nb: Notebook, c: Codec)
    requires forall i :: 0 <= i < |nb.cells| ==> CellOk(nb.cells[i], i, c)
    ensures PrintLines(nb, c) != [] && OneLine(PrintLines(nb, c))
  {
    hide CellOk, PrintBlock, PrintCells;
    BlockIsLines(MetadataBlock, PrintMeta(nb.meta, c));
    CellsAreLines(nb.cells, 0, c);
  }

  // ---- every parsed notebook has this form ----

  predicate AllOk(cells: seq<Cell>, c: Codec) {
    forall i :: 0 <= i < |cells| ==> CellOk(cells[i], i, c)
  }

  lemma {:induction false} WordPrefixIsWord(s: string)
    ensures forall ch <- WordPrefix(s) :: IsWordChar(ch)
    ensures s != "" && IsWordChar(s[0]) ==> WordPrefix(s) != ""
  {
    if s == "" {
    } else {
      WordPrefixIsWord(s[1..]);
    }
  }

  lemma MagicIsName(l: string)
    ensures CellMagicOf(l).Some? ==> IsMagicName(CellMagicOf(l).value)
  {
    var t := Strip(l);
    if CellMagicOf(l).Some? {
      WordPrefixIsWord(t[2..]);
      var p := WordPrefix(t[2..]);
      forall i | 0 <= i < |p|
        ensures IsWordChar(Lower(p)[i]) && LowerChar(Lower(p)[i]) == Lower(p)[i]
      {
        assert p[i] in p;
      }
      assert Lower(Lower(p)) == Lower(p);
    }
  }

  lemma CodeCellOk(kind: CellKind, content: seq<string>, index: nat, line: nat, meta: Json, c: Codec)
    requires kind != Markdown && OneLine(content) && meta.Object?
    ensures CellOk(CodeCell(kind, content, index, line, meta), index, c)
  {
    hide Join, Split, MagicsOf, IsMagicName;
    NoNewlines(content);
    var decoded := Decoded(content);
    var lines := WithoutMagic(decoded);
    var i := FirstNonBlank(decoded);
    if i < |decoded| {
      MagicIsName(decoded[i]);
    }
    assert OneLine(lines);
    SameMagics(lines, LanguageOf(FirstMagic(decoded)));
  }

  lemma SameMagics(lines: seq<string>, language: string)
    requires OneLine(lines)
    ensures MagicsOf(language, Split(Join(lines))) == MagicsOf(language, lines)
  {
    if lines != [] {
      SplitJoin(lines);
    } else {
      assert Split("") == [""];
      assert !IsLineMagic("") && LineMagics([""]) == [] + LineMagics([""][1..]);
      assert [""][1..] == [];
    }
  }

  lemma StepOk(s: State, b: Block, first: bool, c: Codec)
    requires Fine(s) && s.Running? && AllOk(s.cells, c) && OneLine(b.raw) && c.empty.Object?
    ensures Step(s, b, first, c).Running? ==> AllOk(Step(s, b, first, c).cells, c)
  {
    hide CodeCell, MarkdownCell, Meta, MetaOf, MetaWarnings, Clash;
    if IsMeta(b) {
      if s.pending && !first {
        MetaKeepsOk(s.cells[|s.cells| - 1], |s.cells| - 1, MetaOf(Content(b.raw), c), c);
      }
    } else if IsCode(b) {
      var kind := if b.marker.kind == ParametersBlock then Parameters else Code;
      CodeCellOk(kind, Content(b.raw), |s.cells|, b.line, c.empty, c);
    } else {
      MarkdownCellOk(Content(b.raw), |s.cells|, b.line, c);
    }
  }

  lemma MarkdownCellOk(content: seq<string>, index: nat, line: nat, c: Codec)
    requires c.empty.Object?
    ensures CellOk(MarkdownCell(content, index, line, c), index, c)
  {
  }

  lemma MetaKeepsOk(x: Cell, index: nat, meta: Json, c: Codec)
    requires CellOk(x, index, c) && x.kind != Markdown
    ensures meta.Object? ==> CellOk(x.(meta := meta), index, c)
  {
  }

  lemma {:induction false} RunOk(s: State, blocks: seq<Block>, first: bool, c: Codec)
    requires Fine(s) && s.Running? && AllOk(s.cells, c) && c.empty.Object? && forall b <- blocks :: OneLine(b.raw)
    ensures Run(s, blocks, first, c).Running? ==> AllOk(Run(s, blocks, first, c).cells, c)
    decreases blocks
  {
    hide Step, AllOk;
    if blocks == [] {
    } else {
      StepFine(s, blocks[0], first, c);
      StepOk(s, blocks[0], first, c);
      if Step(s, blocks[0], first, c).Raised? {
        StaysRaised(blocks[1..], c);
      } else {
        RunOk(Step(s, blocks[0], first, c), blocks[1..], false, c);
      }
    }
  }

  lemma {:induction false} BlocksAreLines(lines: seq<string>, no: nat, mark: Marking)
    requires OneLine(lines)
    ensures OneLine(Cut(lines, no, mark).before) && forall b <- Cut(lines, no, mark).blocks :: OneLine(b.raw)
  {
    if lines == [] {
    } else {
      BlocksAreLines(lines[1..], no + 1, mark);
    }
  }

  lemma BlocksOk(blocks: seq<Block>, warnings: seq<Warning>, c: Codec)
    requires c.empty.Object? && forall b <- blocks :: OneLine(b.raw)
    ensures FromBlocks(blocks, warnings, c).Parsed? ==> AllOk(FromBlocks(blocks, warnings, c).nb.cells, c)
  {
    hide CellOk;
    var s := Running(c.empty, [], false, warnings);
    RunFine(s, blocks, true, c);
    RunOk(s, blocks, true, c);
  }

  /** What any text parses to is a notebook that the round trip speaks of. */
  lemma ParsedIsOk(text: string, c: Codec)
    requires c.Lawful()
    ensures var r := ParseLines(Split(Unix(text)), c); r.Parsed? ==> AllOk(r.nb.cells, c)
  {
    hide FromBlocks, FileWarnings, AllOk, Cut, Unix;
    var lines := Split(Unix(text));
    BlocksAreLines(lines, 1, ParseMarker);
    BlocksOk(FileBlocks(lines), FileWarnings(lines), c);
  }
}
