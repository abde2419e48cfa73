/** The Fabric notebook source format (notebook.py): a file is a flat sequence of blocks,
    each introduced by a marker line. JSON is an abstract codec, warnings carry the line
    they name and not their wording. */
module NotebookFormat {
  import opened Text

  const HEADER := "# Fabric notebook source"
  const META_PREFIX := "# META "
  const MAGIC_PREFIX := "# MAGIC "

  // ---- lines ----

  /** `text.split("\n")`. */
  function Split(s: string): (r: seq<string>)
    ensures |r| > 0
    ensures forall l <- r :: '\n' !in l
  {
    if s == "" then [""]
    else if s[0] == '\n' then [""] + Split(s[1..])
    else var rest := Split(s[1..]); [[s[0]] + rest[0]] + rest[1..]
  }

  /** `"\n".join(ls)`. */
  function Join(ls: seq<string>): string {
    if ls == [] then "" else if |ls| == 1 then ls[0] else ls[0] + "\n" + Join(ls[1..])
  }

  lemma {:induction false} JoinSplit(s: string)
    ensures Join(Split(s)) == s
  {
    if s == "" {
    } else {
      JoinSplit(s[1..]);
      assert s == [s[0]] + s[1..];
      var rest := Split(s[1..]);
      if s[0] != '\n' && |rest| > 1 {
        assert ([[s[0]] + rest[0]] + rest[1..])[1..] == rest[1..];
      }
    }
  }

  lemma {:induction false} SplitJoin(ls: seq<string>)
    requires ls != [] && forall l <- ls :: '\n' !in l
    ensures Split(Join(ls)) == ls
    decreases |ls|
  {
    if |ls| == 1 {
      SplitOne(ls[0]);
    } else {
      SplitJoin(ls[1..]);
      SplitCons(ls[0], Join(ls[1..]));
    }
  }

  lemma {:induction false} SplitOne(l: string)
    requires '\n' !in l
    ensures Split(l) == [l]
  {
    if l == "" {
    } else {
      SplitOne(l[1..]);
      assert l == [l[0]] + l[1..];
    }
  }

  lemma {:induction false} SplitCons(l: string, s: string)
    requires '\n' !in l
    ensures Split(l + "\n" + s) == [l] + Split(s)
  {
    var all := l + "\n" + s;
    if l == "" {
      assert all[1..] == s;
    } else {
      SplitCons(l[1..], s);
      assert all[1..] == l[1..] + "\n" + s;
      assert l == [l[0]] + l[1..];
    }
  }

  /** `text.replace("\r\n", "\n")`. */
  function Unix(s: string): (r: string)
    ensures |r| <= |s|
    ensures |r| == |s| <==> r == s
    decreases |s|
  {
    if s == "" then ""
    else if "\r\n" <= s then "\n" + Unix(s[2..])
    else [s[0]] + Unix(s[1..])
  }

  function JoinCrLf(ls: seq<string>): string {
    if ls == [] then "" else if |ls| == 1 then ls[0] else ls[0] + "\r\n" + JoinCrLf(ls[1..])
  }

  lemma {:induction false} UnixLine(l: string, s: string)
    requires '\n' !in l
    ensures Unix(l + "\r\n" + s) == l + "\n" + Unix(s)
  {
    var all := l + "\r\n" + s;
    if l == "" {
      assert all[2..] == s;
    } else {
      assert all[1..] == l[1..] + "\r\n" + s;
      assert all[1] != '\n';
      UnixLine(l[1..], s);
    }
  }

  lemma {:induction false} UnixNoNewline(l: string)
    requires '\n' !in l
    ensures Unix(l) == l
  {
    if l == "" {
    } else {
      UnixNoNewline(l[1..]);
      assert |l| > 1 ==> l[1] != '\n';
    }
  }

  /** A checkout with CR LF line ends reads as the one with LF. */
  lemma {:induction false} CrLfReadsAsLf(ls: seq<string>)
    requires ls != [] && forall l <- ls :: '\n' !in l
    ensures Unix(JoinCrLf(ls)) == Join(ls)
    decreases |ls|
  {
    if |ls| == 1 {
      UnixNoNewline(ls[0]);
    } else {
      CrLfReadsAsLf(ls[1..]);
      UnixLine(ls[0], JoinCrLf(ls[1..]));
    }
  }

  /** `l.strip()`. */
  function Strip(l: string): string
    decreases |l|
  {
    if l == "" then ""
    else if IsSpace(l[0]) then Strip(l[1..])
    else if IsSpace(l[|l| - 1]) then Strip(l[..|l| - 1])
    else l
  }

  predicate Blank(l: string) {
    Strip(l) == ""
  }

  // ---- markers and blocks ----

  datatype BlockKind = MetadataBlock | CellBlock | MarkdownBlock | ParametersBlock

  function KindName(k: BlockKind): string {
    match k
    case MetadataBlock => "METADATA"
    case CellBlock => "CELL"
    case MarkdownBlock => "MARKDOWN"
    case ParametersBlock => "PARAMETERS CELL"
  }

  function MarkerPrefix(k: BlockKind): string {
    "# " + KindName(k) + " "
  }

  function MarkerLine(k: BlockKind, stars: nat): string {
    MarkerPrefix(k) + seq(stars, _ => '*')
  }

  datatype Marker = Marker(kind: BlockKind, stars: nat)

  predicate IsMarkerOf(l: string, k: BlockKind) {
    MarkerPrefix(k) < l && forall i :: |MarkerPrefix(k)| <= i < |l| ==> l[i] == '*'
  }

  /** `MARKER_RE.match(l)`. */
  function ParseMarker(l: string): (r: Option<Marker>)
    ensures r.Some? ==> r.value.stars > 0 && l == MarkerLine(r.value.kind, r.value.stars)
  {
    if IsMarkerOf(l, MetadataBlock) then Some(Marker(MetadataBlock, |l| - |MarkerPrefix(MetadataBlock)|))
    else if IsMarkerOf(l, CellBlock) then Some(Marker(CellBlock, |l| - |MarkerPrefix(CellBlock)|))
    else if IsMarkerOf(l, MarkdownBlock) then Some(Marker(MarkdownBlock, |l| - |MarkerPrefix(MarkdownBlock)|))
    else if IsMarkerOf(l, ParametersBlock) then Some(Marker(ParametersBlock, |l| - |MarkerPrefix(ParametersBlock)|))
    else None
  }

  lemma MarkerInverts(k: BlockKind, stars: nat)
    requires stars > 0
    ensures ParseMarker(MarkerLine(k, stars)) == Some(Marker(k, stars))
  {
    var l := MarkerLine(k, stars);
    assert IsMarkerOf(l, k);
    assert l[2] == KindName(k)[0] && l[3] == KindName(k)[1] && l[4] == KindName(k)[2];
    forall j: BlockKind | MarkerPrefix(j) <= l
      ensures j == k
    {
      assert MarkerPrefix(j)[2] == l[2] && MarkerPrefix(j)[3] == l[3] && MarkerPrefix(j)[4] == l[4];
    }
  }

  /** What tells a marker line from the others. */
  type Marking = string -> Option<Marker>

  datatype Block = Block(marker: Marker, head: string, line: nat, raw: seq<string>)

  datatype Cuts = Cuts(before: seq<string>, blocks: seq<Block>)

  /** The blocks of a file whose first line has number `no`, and the lines before them. */
  function Cut(lines: seq<string>, no: nat, mark: Marking): Cuts {
    if lines == [] then Cuts([], [])
    else
      var rest := Cut(lines[1..], no + 1, mark);
      match mark(lines[0])
      case Some(m) => Cuts([], [Block(m, lines[0], no, rest.before)] + rest.blocks)
      case None => Cuts([lines[0]] + rest.before, rest.blocks)
  }

  /** A block's lines without the blank one that follows its marker and the blank one
      that precedes the next. */
  function Content(raw: seq<string>): (r: seq<string>) {
    var c := if raw != [] && raw[0] == "" then raw[1..] else raw;
    if c != [] && c[|c| - 1] == "" then c[..|c| - 1] else c
  }

  function Flatten(blocks: seq<Block>): seq<string> {
    if blocks == [] then [] else [blocks[0].head] + blocks[0].raw + Flatten(blocks[1..])
  }

  /** Every line of every file is either before the first marker or in exactly one block. */
  lemma {:induction false} BlocksPartition(lines: seq<string>, no: nat, mark: Marking)
    ensures var c := Cut(lines, no, mark); c.before + Flatten(c.blocks) == lines
    ensures forall l <- Cut(lines, no, mark).before :: mark(l).None?
    ensures forall b <- Cut(lines, no, mark).blocks :: mark(b.head) == Some(b.marker)
    ensures forall b <- Cut(lines, no, mark).blocks, l <- b.raw :: mark(l).None?
  {
    hide Flatten;
    CutFlattens(lines, no, mark);
    if lines == [] {
    } else {
      BlocksPartition(lines[1..], no + 1, mark);
    }
  }

  lemma {:induction false} CutFlattens(lines: seq<string>, no: nat, mark: Marking)
    ensures Cut(lines, no, mark).before + Flatten(Cut(lines, no, mark).blocks) == lines
  {
    if lines == [] {
    } else {
      CutFlattens(lines[1..], no + 1, mark);
      var rest, c := Cut(lines[1..], no + 1, mark), Cut(lines, no, mark);
      assert lines == [lines[0]] + (rest.before + Flatten(rest.blocks));
      if mark(lines[0]).Some? {
        assert c.blocks[1..] == rest.blocks;
      }
    }
  }

  /** A block loses at most one line at either end, and only an empty one. */
  lemma ContentOf(raw: seq<string>)
    ensures exists a, b :: && 0 <= a <= b <= |raw| && a <= 1 && |raw| - b <= 1 && Content(raw) == raw[a..b]
                           && (a == 1 ==> raw[0] == "") && (b < |raw| ==> raw[b] == "")
  {
    var a := if raw != [] && raw[0] == "" then 1 else 0;
    var b := if |raw| > a && raw[|raw| - 1] == "" then |raw| - 1 else |raw|;
    assert Content(raw) == raw[a..b];
  }

  lemma {:induction false} CutBeforeMarker(lines: seq<string>, no: nat, e: nat, mark: Marking)
    requires e <= |lines| && (e < |lines| ==> mark(lines[e]).Some?)
    requires forall i :: 0 <= i < e ==> mark(lines[i]).None?
    ensures Cut(lines, no, mark).before == lines[..e]
    ensures Cut(lines, no, mark).blocks == Cut(lines[e..], no + e, mark).blocks
    decreases e
  {
    if e == 0 {
      assert lines[0..] == lines;
    } else {
      CutBeforeMarker(lines[1..], no + 1, e - 1, mark);
      assert lines[1..][e - 1..] == lines[e..];
      assert lines[..e] == [lines[0]] + lines[1..][..e - 1];
    }
  }

  /** One warning for each of the first n lines that is a marker without 20 stars. */
  function StarWarnings(lines: seq<string>, n: nat, mark: Marking): seq<Warning>
    requires n <= |lines|
  {
    if n == 0 then [] else StarWarnings(lines, n - 1, mark) + StarWarning(mark(lines[n - 1]), n)
  }

  function StarWarning(m: Option<Marker>, no: nat): seq<Warning> {
    if m.Some? && m.value.stars != 20 then [StarCount(no, m.value.stars)] else []
  }

  /** Positions that rise within the file. */
  predicate Rising(lines: seq<string>, at: seq<nat>) {
    && (forall j :: 0 <= j < |at| ==> at[j] < |lines|)
    && (forall i, j :: 0 <= i < j < |at| ==> at[i] < at[j])
  }

  /** at holds the positions of the markers among the first n lines, in order. */
  ghost predicate MarkersAt(lines: seq<string>, at: seq<nat>, n: nat, mark: Marking)
    requires n <= |lines|
  {
    && Rising(lines, at)
    && (forall j :: 0 <= j < |at| ==> at[j] < n && mark(lines[at[j]]).Some?)
    && (forall i :: 0 <= i < n && mark(lines[i]).Some? ==> i in at)
  }

  lemma NoMarkersYet(lines: seq<string>, mark: Marking)
    ensures MarkersAt(lines, [], 0, mark)
  {
  }

  lemma WarnedStars(m: Option<Marker>, no: nat)
    ensures StarWarning(m, no) == if m.Some? && m.value.stars != 20 then [StarCount(no, m.value.stars)] else []
  {
  }

  lemma RisingNext(lines: seq<string>, at: seq<nat>, i: nat)
    requires i < |lines| && Rising(lines, at) && forall j :: 0 <= j < |at| ==> at[j] < i
    ensures Rising(lines, at + [i])
  {
  }

  lemma MarkersNext(lines: seq<string>, at: seq<nat>, i: nat, mark: Marking)
    requires i < |lines| && MarkersAt(lines, at, i, mark)
    ensures MarkersAt(lines, if mark(lines[i]).Some? then at + [i] else at, i + 1, mark)
  {
    if mark(lines[i]).Some? {
      hide Rising;
      RisingNext(lines, at, i);
      assert forall k :: k in at + [i] <==> k in at || k == i;
    }
  }

  /** The first loop of the parser: where the markers are. */
  method FindMarkers(lines: seq<string>, mark: Marking) returns (at: seq<nat>, warnings: seq<Warning>)
    ensures MarkersAt(lines, at, |lines|, mark)
    ensures warnings == StarWarnings(lines, |lines|, mark)
  {
    hide MarkersAt, StarWarning;
    at, warnings := [], [];
    NoMarkersYet(lines, mark);
    for i := 0 to |lines|
      invariant MarkersAt(lines, at, i, mark)
      invariant warnings == StarWarnings(lines, i, mark)
    {
      var m := mark(lines[i]);
      MarkersNext(lines, at, i, mark);
      WarnedStars(m, i + 1);
      if m.Some? {
        at := at + [i];
        if m.value.stars != 20 {
          warnings := warnings + [StarCount(i + 1, m.value.stars)];
        }
      }
    }
  }

  /** Where block n starts; past the last block, where the file ends. */
  function Start(lines: seq<string>, at: seq<nat>, n: nat): nat
    requires n <= |at|
  {
    if n == |at| then |lines| else at[n]
  }

  /** The block of marker n. */
  function BlockAt(lines: seq<string>, at: seq<nat>, n: nat, mark: Marking): Block
    requires Rising(lines, at) && n < |at| && mark(lines[at[n]]).Some?
  {
    Block(mark(lines[at[n]]).value, lines[at[n]], at[n] + 1, lines[at[n] + 1..Start(lines, at, n + 1)])
  }

  function BlocksUpTo(lines: seq<string>, at: seq<nat>, n: nat, mark: Marking): seq<Block>
    requires Rising(lines, at) && n <= |at|
    requires forall j :: 0 <= j < |at| ==> mark(lines[at[j]]).Some?
  {
    if n == 0 then [] else BlocksUpTo(lines, at, n - 1, mark) + [BlockAt(lines, at, n - 1, mark)]
  }

  function CutFrom(lines: seq<string>, at: seq<nat>, n: nat, mark: Marking): seq<Block>
    requires Rising(lines, at) && n <= |at|
  {
    Cut(lines[Start(lines, at, n)..], 1 + Start(lines, at, n), mark).blocks
  }

  /** The second loop of the parser: the lines of each block. */
  method CutBlocks(lines: seq<string>, at: seq<nat>, mark: Marking) returns (blocks: seq<Block>)
    requires MarkersAt(lines, at, |lines|, mark)
    ensures blocks == Cut(lines, 1, mark).blocks
  {
    blocks := [];
    for n := 0 to |at|
      invariant blocks == BlocksUpTo(lines, at, n, mark)
    {
      var i, end := at[n], if n + 1 == |at| then |lines| else at[n + 1];
      blocks := blocks + [Block(mark(lines[i]).value, lines[i], i + 1, lines[i + 1..end])];
    }
    BlocksAreCut(lines, at, |at|, mark);
    assert lines[|lines|..] == [];
  }

  lemma {:induction false} BlocksAreCut(lines: seq<string>, at: seq<nat>, n: nat, mark: Marking)
    requires MarkersAt(lines, at, |lines|, mark) && n <= |at|
    ensures Cut(lines, 1, mark).blocks == BlocksUpTo(lines, at, n, mark) + CutFrom(lines, at, n, mark)
  {
    hide Cut, CutFrom, BlockAt, Start;
    if n == 0 {
      FirstBlock(lines, at, mark);
    } else {
      BlocksAreCut(lines, at, n - 1, mark);
      NextBlock(lines, at, n - 1, mark);
      Shift(Cut(lines, 1, mark).blocks, BlocksUpTo(lines, at, n - 1, mark), BlockAt(lines, at, n - 1, mark),
            CutFrom(lines, at, n - 1, mark), CutFrom(lines, at, n, mark));
    }
  }

  lemma Shift<T>(all: seq<T>, a: seq<T>, x: T, b: seq<T>, c: seq<T>)
    requires all == a + b && b == [x] + c
    ensures all == (a + [x]) + c
  {
  }

  lemma FirstBlock(lines: seq<string>, at: seq<nat>, mark: Marking)
    requires MarkersAt(lines, at, |lines|, mark)
    ensures Cut(lines, 1, mark).blocks == CutFrom(lines, at, 0, mark)
  {
    hide Cut;
    var e := Start(lines, at, 0);
    assert CutFrom(lines, at, 0, mark) == Cut(lines[e..], 1 + e, mark).blocks;
    assert forall x <- at :: x >= e;
    assert forall i :: 0 <= i < e ==> i !in at && mark(lines[i]).None?;
    CutBeforeMarker(lines, 1, e, mark);
  }

  lemma NextBlock(lines: seq<string>, at: seq<nat>, n: nat, mark: Marking)
    requires MarkersAt(lines, at, |lines|, mark) && n < |at|
    ensures CutFrom(lines, at, n, mark) == [BlockAt(lines, at, n, mark)] + CutFrom(lines, at, n + 1, mark)
  {
    hide Cut;
    NothingBetween(lines, at, n);
    var rest := CutOne(lines, at[n], Start(lines, at, n + 1), mark);
  }

  lemma NothingBetween(lines: seq<string>, at: seq<nat>, n: nat)
    requires n < |at| && Rising(lines, at)
    ensures at[n] < Start(lines, at, n + 1) <= |lines|
    ensures forall x <- at :: x <= at[n] || x >= Start(lines, at, n + 1)
  {
  }

  lemma CutOne(lines: seq<string>, i: nat, end: nat, mark: Marking) returns (rest: seq<Block>)
    requires i < end <= |lines| && mark(lines[i]).Some? && (end < |lines| ==> mark(lines[end]).Some?)
    requires forall k :: i < k < end ==> mark(lines[k]).None?
    ensures rest == Cut(lines[end..], 1 + end, mark).blocks
    ensures Cut(lines[i..], 1 + i, mark).blocks
         == [Block(mark(lines[i]).value, lines[i], i + 1, lines[i + 1..end])] + rest
  {
    rest := Cut(lines[end..], 1 + end, mark).blocks;
    CutBeforeMarker(lines[i + 1..], i + 2, end - i - 1, mark);
    assert lines[i..][1..] == lines[i + 1..];
    assert lines[i + 1..][end - i - 1..] == lines[end..];
    assert lines[i + 1..][..end - i - 1] == lines[i + 1..end];
  }

  // ---- cells ----

  datatype Language = Unset | Named(name: string) | Odd

  /** What `json.loads` gives: a dictionary, of which the parser reads one key, or not. */
  datatype Json = Object(language: Language, rest: string) | NotObject(text: string)

  /** `json.loads`: a value, a JSONDecodeError, or another exception, as for an integer of more
      digits than Python converts or for nesting deeper than its stack. */
  datatype Loads = Value(json: Json) | NotJson | Fails

  datatype Codec = Codec(loads: string -> Loads, dumps: Json -> string, empty: Json) {
    /** `loads` inverts `dumps`, and `{}` is a dictionary without a language. */
    ghost predicate Lawful() {
      && (forall j: Json :: loads(dumps(j)) == Value(j))
      && empty.Object? && empty.language == Unset
    }
  }

  datatype CellKind = Code | Parameters | Markdown

  datatype Cell = Cell(index: nat, kind: CellKind, language: string, source: string, line: nat,
                       meta: Json, magics: seq<string>, cellMagic: Option<string>)

  datatype Notebook = Notebook(meta: Json, cells: seq<Cell>)

  datatype Warning =
    | NoHeader
    | StarCount(line: nat, stars: nat)
    | NonMetaLine(line: nat)
    | BadJson(line: nat)
    | MetaSaysSparkSql(line: nat)
    | MetaSaysOther(line: nat)
    | OrphanMetadata(line: nat)
    | NoMetadata(line: nat)
    | NoFileMetadata

  datatype MetaLine = JsonText(text: string) | Empty | Foreign

  function MetaLineOf(raw: string): MetaLine {
    if META_PREFIX <= raw then JsonText(raw[|META_PREFIX|..])
    else if Strip(raw) == "# META" then JsonText("")
    else if Blank(raw) then Empty
    else Foreign
  }

  function JsonOf(m: MetaLine): seq<string> {
    if m.JsonText? then [m.text] else []
  }

  /** The JSON lines among the first n of a METADATA block. */
  function Payload(lines: seq<string>, n: nat): seq<string>
    requires n <= |lines|
  {
    if n == 0 then [] else Payload(lines, n - 1) + JsonOf(MetaLineOf(lines[n - 1]))
  }

  function NonMeta(lines: seq<string>, n: nat, no: nat): seq<Warning>
    requires n <= |lines|
  {
    if n == 0 then []
    else NonMeta(lines, n - 1, no) + if MetaLineOf(lines[n - 1]).Foreign? then [NonMetaLine(no)] else []
  }

  /** What the JSON of a METADATA block loads to. */
  function Meta(lines: seq<string>, c: Codec): Loads {
    var payload := Payload(lines, |lines|);
    if payload == [] then Value(c.empty) else c.loads(Join(payload))
  }

  function MetaOf(lines: seq<string>, c: Codec): Json {
    var m := Meta(lines, c);
    if m.Value? then m.json else c.empty
  }

  function MetaWarnings(lines: seq<string>, no: nat, c: Codec): seq<Warning> {
    NonMeta(lines, |lines|, no) + if Meta(lines, c).NotJson? then [BadJson(no)] else []
  }

  /** `_parse_meta`; None when `json.loads` raises what it does not catch. */
  method ParseMeta(lines: seq<string>, no: nat, c: Codec) returns (j: Option<Json>, warnings: seq<Warning>)
    ensures j == if Meta(lines, c).Fails? then None else Some(MetaOf(lines, c))
    ensures warnings == MetaWarnings(lines, no, c)
  {
    var payload := [];
    warnings := [];
    for i := 0 to |lines|
      invariant payload == Payload(lines, i)
      invariant warnings == NonMeta(lines, i, no)
    {
      var m := MetaLineOf(lines[i]);
      if m.JsonText? {
        payload := payload + [m.text];
      } else if m.Foreign? {
        warnings := warnings + [NonMetaLine(no)];
      }
    }
    if payload == [] {
      return Some(c.empty), warnings;
    }
    match c.loads(Join(payload))
    case Value(json) =>
      j := Some(json);
    case NotJson =>
      warnings := warnings + [BadJson(no)];
      j := Some(c.empty);
    case Fails =>
      j := None;
  }

  // ---- from a block's lines to a cell ----

  predicate IsWordChar(c: char) {
    'a' <= c <= 'z' || 'A' <= c <= 'Z' || '0' <= c <= '9' || c == '_'
  }

  function WordPrefix(s: string): string {
    if s != "" && IsWordChar(s[0]) then [s[0]] + WordPrefix(s[1..]) else ""
  }

  /** The language magic of a line, lower-cased: `CELL_MAGIC_RE.match(l.strip())`. */
  function CellMagicOf(l: string): Option<string> {
    var t := Strip(l);
    if |t| > 2 && t[0] == t[1] == '%' && IsWordChar(t[2]) then Some(Lower(WordPrefix(t[2..]))) else None
  }

  /** `LINE_MAGIC_RE.match(l)`. */
  predicate IsLineMagic(l: string) {
    |l| > 1 && (l[0] == '%' || l[0] == '!') && l[1] != '%' && !IsSpace(l[1])
  }

  function LineMagics(lines: seq<string>): seq<string> {
    if lines == [] then []
    else (if IsLineMagic(lines[0]) then [lines[0]] else []) + LineMagics(lines[1..])
  }

  /** The line under a MAGIC prefix. */
  function Unprefixed(l: string): string {
    if MAGIC_PREFIX <= l then l[|MAGIC_PREFIX|..]
    else if Strip(l) == "# MAGIC" then ""
    else l
  }

  predicate StartsMagic(l: string) {
    "# MAGIC" <= l
  }

  predicate AllMagic(content: seq<string>) {
    && (exists l <- content :: !Blank(l))
    && (forall l <- content :: !Blank(l) ==> StartsMagic(l))
  }

  function Mapped(ls: seq<string>, f: string -> string): (r: seq<string>)
    ensures |r| == |ls| && forall i :: 0 <= i < |ls| ==> r[i] == f(ls[i])
  {
    seq(|ls|, i requires 0 <= i < |ls| => f(ls[i]))
  }

  function Decoded(content: seq<string>): seq<string> {
    if AllMagic(content) then Mapped(content, Unprefixed) else content
  }

  function FirstNonBlank(ls: seq<string>): (r: nat)
    ensures r <= |ls| && (r < |ls| ==> !Blank(ls[r]))
    ensures forall i :: 0 <= i < r ==> Blank(ls[i])
  {
    if ls == [] || !Blank(ls[0]) then 0 else 1 + FirstNonBlank(ls[1..])
  }

  function FirstMagic(lines: seq<string>): Option<string> {
    var i := FirstNonBlank(lines);
    if i < |lines| then CellMagicOf(lines[i]) else None
  }

  function WithoutMagic(lines: seq<string>): seq<string> {
    var i := FirstNonBlank(lines);
    if FirstMagic(lines).Some? then lines[..i] + lines[i + 1..] else lines
  }

  function LanguageOf(magic: Option<string>): string {
    if magic == None then "python" else if magic == Some("sql") then "sparksql" else magic.value
  }

  function MagicsOf(language: string, lines: seq<string>): seq<string> {
    if language == "python" then LineMagics(lines) else []
  }

  /** `_decode_code`. */
  function CodeCell(kind: CellKind, content: seq<string>, index: nat, line: nat, meta: Json): Cell {
    var decoded := Decoded(content);
    var magic, lines := FirstMagic(decoded), WithoutMagic(decoded);
    Cell(index, kind, LanguageOf(magic), Join(lines), line, meta, MagicsOf(LanguageOf(magic), lines), magic)
  }

  function Unmarked(l: string): string {
    if "# " <= l then l[2..] else if l == "#" then "" else l
  }

  /** `_decode_markdown`. */
  method DecodeMarkdown(content: seq<string>) returns (source: string)
    ensures source == Join(Mapped(content, Unmarked))
  {
    var out := [];
    for i := 0 to |content|
      invariant out == Mapped(content[..i], Unmarked)
    {
      out := out + [Unmarked(content[i])];
    }
    assert content[..|content|] == content;
    source := Join(out);
  }

  function MarkdownCell(content: seq<string>, index: nat, line: nat, c: Codec): Cell {
    Cell(index, Markdown, "markdown", Join(Mapped(content, Unmarked)), line, c.empty, [], None)
  }

  function CellOf(b: Block, index: nat, c: Codec): Cell {
    if b.marker.kind == MarkdownBlock then MarkdownCell(Content(b.raw), index, b.line, c)
    else
      CodeCell(if b.marker.kind == ParametersBlock then Parameters else Code, Content(b.raw), index, b.line, c.empty)
  }

  // ---- the loop over the blocks ----

  /** `pending`: the last cell is a code cell whose METADATA block has not come. */
  datatype State =
    | Running(meta: Json, cells: seq<Cell>, pending: bool, warnings: seq<Warning>)
    | Raised

  predicate Fine(s: State) {
    s.Running? && s.pending ==> s.cells != [] && s.cells[|s.cells| - 1].kind != Markdown
  }

  predicate IsMeta(b: Block) {
    b.marker.kind == MetadataBlock
  }

  predicate IsCode(b: Block) {
    b.marker.kind == CellBlock || b.marker.kind == ParametersBlock
  }

  /** The block's JSON makes `json.loads` raise something else than a JSONDecodeError. */
  predicate LoadsFail(b: Block, c: Codec) {
    IsMeta(b) && Meta(Content(b.raw), c).Fails?
  }

  function Clash(magic: Option<string>, language: Language, line: nat): seq<Warning> {
    if language == Named("sparksql") && magic != Some("sql") then [MetaSaysSparkSql(line)]
    else if magic == Some("sql") && language != Unset && language != Named("sparksql") then [MetaSaysOther(line)]
    else []
  }

  function Step(s: State, b: Block, first: bool, c: Codec): State
    requires Fine(s)
  {
    if s.Raised? || LoadsFail(b, c) then Raised
    else if IsMeta(b) then
      var obj, w := MetaOf(Content(b.raw), c), s.warnings + MetaWarnings(Content(b.raw), b.line, c);
      if first then s.(meta := obj, warnings := w)
      else if s.pending then AttachMeta(s.(warnings := w), obj)
      else s.(warnings := w + [OrphanMetadata(b.line)])
    else
      Running(s.meta, s.cells + [CellOf(b, |s.cells|, c)], IsCode(b), s.warnings + Unattached(s))
  }

  /** Giving the last cell its metadata; reading a key of what is not a dictionary raises. */
  function AttachMeta(s: State, obj: Json): State
    requires s.Running? && s.cells != []
  {
    var last := s.cells[|s.cells| - 1];
    if obj.NotObject? then Raised
    else Running(s.meta, s.cells[..|s.cells| - 1] + [last.(meta := obj)], false,
                 s.warnings + Clash(last.cellMagic, obj.language, last.line))
  }

  function Unattached(s: State): seq<Warning>
    requires s.Running? && Fine(s)
  {
    if s.pending then [NoMetadata(s.cells[|s.cells| - 1].line)] else []
  }

  lemma StepFine(s: State, b: Block, first: bool, c: Codec)
    requires Fine(s)
    ensures Fine(Step(s, b, first, c))
  {
    hide MetaOf, MetaWarnings, Clash, Content;
  }

  function Run(s: State, blocks: seq<Block>, first: bool, c: Codec): State
    requires Fine(s)
    decreases blocks
  {
    if blocks == [] then s
    else
      StepFine(s, blocks[0], first, c);
      Run(Step(s, blocks[0], first, c), blocks[1..], false, c)
  }

  datatype Outcome = Parsed(nb: Notebook, warnings: seq<Warning>) | Exception

  function Finish(s: State, blocks: seq<Block>): Outcome
    requires Fine(s)
  {
    if s.Raised? then Exception
    else
      Parsed(Notebook(s.meta, s.cells),
             s.warnings + Unattached(s) + if blocks == [] || !IsMeta(blocks[0]) then [NoFileMetadata] else [])
  }

  function HeaderWarnings(lines: seq<string>): seq<Warning> {
    if lines == [] || lines[0] != HEADER then [NoHeader] else []
  }

  lemma {:induction false} RunFine(s: State, blocks: seq<Block>, first: bool, c: Codec)
    requires Fine(s)
    ensures Fine(Run(s, blocks, first, c))
    decreases blocks
  {
    if blocks == [] {
    } else {
      StepFine(s, blocks[0], first, c);
      RunFine(Step(s, blocks[0], first, c), blocks[1..], false, c);
    }
  }

  function FromBlocks(blocks: seq<Block>, warnings: seq<Warning>, c: Codec): Outcome {
    var s := Running(c.empty, [], false, warnings);
    RunFine(s, blocks, true, c);
    Finish(Run(s, blocks, true, c), blocks)
  }

  function FileBlocks(lines: seq<string>): seq<Block> {
    Cut(lines, 1, ParseMarker).blocks
  }

  function FileWarnings(lines: seq<string>): seq<Warning> {
    HeaderWarnings(lines) + StarWarnings(lines, |lines|, ParseMarker)
  }

  /** What a file with these lines means. */
  function ParseLines(lines: seq<string>, c: Codec): Outcome {
    FromBlocks(FileBlocks(lines), FileWarnings(lines), c)
  }

  /** The third loop of the parser. */
  method ReadBlocks(blocks: seq<Block>, warnings0: seq<Warning>, c: Codec) returns (r: Outcome)
    ensures r == FromBlocks(blocks, warnings0, c)
  {
    hide Meta, MetaOf, MetaWarnings, Clash, Content, CodeCell, Finish;
    var meta, cells, pending, warnings := c.empty, [], false, warnings0;
    ghost var all := Run(Running(c.empty, [], false, warnings0), blocks, true, c);
    for bi := 0 to |blocks|
      invariant Fine(Running(meta, cells, pending, warnings))
      invariant Run(Running(meta, cells, pending, warnings), blocks[bi..], bi == 0, c) == all
    {
      var b := blocks[bi];
      ghost var s := Running(meta, cells, pending, warnings);
      ghost var next := Step(s, b, bi == 0, c);
      StepFine(s, b, bi == 0, c);
      assert blocks[bi..][1..] == blocks[bi + 1..];
      if IsMeta(b) {
        var loaded, w := ParseMeta(Content(b.raw), b.line, c);
        if loaded.None? {
          StaysRaised(blocks[bi + 1..], c);
          FinishRaised(blocks);
          return Exception;
        }
        var obj := loaded.value;
        warnings := warnings + w;
        if bi == 0 {
          meta := obj;
        } else if pending {
          var last := cells[|cells| - 1];
          if obj.NotObject? {
            StaysRaised(blocks[bi + 1..], c);
            FinishRaised(blocks);
            return Exception;
          }
          cells := cells[..|cells| - 1] + [last.(meta := obj)];
          warnings := warnings + Clash(last.cellMagic, obj.language, last.line);
          pending := false;
        } else {
          warnings := warnings + [OrphanMetadata(b.line)];
        }
      } else {
        if pending {
          warnings := warnings + [NoMetadata(cells[|cells| - 1].line)];
        }
        if b.marker.kind == MarkdownBlock {
          var source := DecodeMarkdown(Content(b.raw));
          cells := cells + [Cell(|cells|, Markdown, "markdown", source, b.line, c.empty, [], None)];
        } else {
          cells := cells + [CellOf(b, |cells|, c)];
        }
        pending := IsCode(b);
      }
      assert Running(meta, cells, pending, warnings) == next;
    }
    assert blocks[|blocks|..] == [];
    r := Finish(Running(meta, cells, pending, warnings), blocks);
  }

  lemma {:induction false} StaysRaised(blocks: seq<Block>, c: Codec)
    ensures Run(Raised, blocks, false, c) == Raised
  {
    if blocks == [] {
    } else {
      StaysRaised(blocks[1..], c);
    }
  }

  lemma FinishRaised(blocks: seq<Block>)
    ensures Finish(Raised, blocks) == Exception
  {
  }

  /** `parse_notebook_source`. */
  method ParseNotebook(text: string, c: Codec) returns (r: Outcome)
    ensures r == ParseLines(Split(Unix(text)), c)
  {
    hide Split, Unix, Cut, StarWarnings, FromBlocks;
    var lines := Split(Unix(text));
    var at, stars := FindMarkers(lines, ParseMarker);
    var blocks := CutBlocks(lines, at, ParseMarker);
    r := ReadBlocks(blocks, HeaderWarnings(lines) + stars, c);
  }

  // ---- when parsing fails ----

  predicate BadMeta(b: Block, c: Codec) {
    IsMeta(b) && MetaOf(Content(b.raw), c).NotObject?
  }

  /** Block n is METADATA whose JSON `loads` fails on, or that of the code cell before it, and
      JSON but no dictionary. */
  predicate RaisesAt(blocks: seq<Block>, n: int, c: Codec) {
    0 <= n < |blocks| && (LoadsFail(blocks[n], c) || (n > 0 && IsCode(blocks[n - 1]) && BadMeta(blocks[n], c)))
  }

  lemma StepFacts(s: State, b: Block, first: bool, c: Codec)
    requires Fine(s) && s.Running? && (first ==> !s.pending)
    ensures Step(s, b, first, c).Raised? <==> LoadsFail(b, c) || (s.pending && BadMeta(b, c))
    ensures Step(s, b, first, c).Running? ==> Step(s, b, first, c).pending == IsCode(b)
  {
    hide Meta, MetaOf, MetaWarnings, Clash, Content, CellOf;
  }

  lemma {:induction false} RunRaisesIff(s: State, blocks: seq<Block>, first: bool, c: Codec)
    requires Fine(s) && s.Running? && (first ==> !s.pending)
    ensures Run(s, blocks, first, c).Raised?
       <==> (s.pending && blocks != [] && BadMeta(blocks[0], c)) || exists n :: RaisesAt(blocks, n, c)
    decreases blocks
  {
    hide LoadsFail, BadMeta, MetaOf, MetaWarnings, Clash, Content, CellOf, Step;
    if blocks == [] {
    } else {
      var next, rest := Step(s, blocks[0], first, c), blocks[1..];
      StepFine(s, blocks[0], first, c);
      StepFacts(s, blocks[0], first, c);
      assert RaisesAt(blocks, 0, c) <==> LoadsFail(blocks[0], c);
      if next.Raised? {
        StaysRaised(rest, c);
      } else {
        RunRaisesIff(next, rest, false, c);
        RaisesLater(blocks, c);
      }
    }
  }

  lemma RaisesLater(blocks: seq<Block>, c: Codec)
    requires blocks != [] && !RaisesAt(blocks, 0, c)
    ensures (exists n :: RaisesAt(blocks, n, c))
       <==> (|blocks| > 1 && IsCode(blocks[0]) && BadMeta(blocks[1], c)) || exists n :: RaisesAt(blocks[1..], n, c)
  {
    hide LoadsFail, BadMeta, IsCode;
    var rest := blocks[1..];
    assert forall n :: n > 0 ==> (RaisesAt(blocks, n + 1, c) <==> RaisesAt(rest, n, c));
    assert RaisesAt(blocks, 1, c) <==>
           |blocks| > 1 && (RaisesAt(rest, 0, c) || (IsCode(blocks[0]) && BadMeta(blocks[1], c)));
    forall n | RaisesAt(blocks, n, c)
      ensures n == 1 || RaisesAt(rest, n - 1, c)
    {
      assert n != 0;
    }
    forall n | RaisesAt(rest, n, c)
      ensures RaisesAt(blocks, n + 1, c)
    {
    }
  }

  lemma BlocksRefusedIff(blocks: seq<Block>, warnings: seq<Warning>, c: Codec)
    ensures FromBlocks(blocks, warnings, c).Exception? <==> exists n :: RaisesAt(blocks, n, c)
  {
    var s := Running(c.empty, [], false, warnings);
    RunFine(s, blocks, true, c);
    RunRaisesIff(s, blocks, true, c);
  }

  /** Parsing raises exactly for METADATA on which `json.loads` fails with more than a syntax
      error, and for METADATA of a code cell that is JSON but no dictionary. */
  lemma RefusedIff(lines: seq<string>, c: Codec)
    ensures ParseLines(lines, c).Exception? <==> exists n :: RaisesAt(FileBlocks(lines), n, c)
  {
    hide FromBlocks, FileBlocks, FileWarnings, RaisesAt;
    BlocksRefusedIff(FileBlocks(lines), FileWarnings(lines), c);
  }
}
