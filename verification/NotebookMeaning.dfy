/** What a notebook file means, block by block and without the parser's state: a cell's metadata
    depends on the next block alone, and every warning on a block and the one before it. */
module NotebookMeaning {
  import opened Text
  import opened NotebookFormat

  /** The JSON of a METADATA block. */
  function JsonAt(blocks: seq<Block>, p: nat, c: Codec): Json
    requires p < |blocks|
  {
    MetaOf(Content(blocks[p].raw), c)
  }

  /** Block p is code with its METADATA right behind it, among the first n blocks. */
  predicate HasMeta(blocks: seq<Block>, p: nat, n: nat)
    requires n <= |blocks|
  {
    p + 1 < n && IsCode(blocks[p]) && IsMeta(blocks[p + 1])
  }

  /** The cell of block p, which is number `index`. */
  function CellAt(blocks: seq<Block>, p: nat, n: nat, index: nat, c: Codec): Cell
    requires p < n <= |blocks|
  {
    CellOf(blocks[p], index, c).(meta := if HasMeta(blocks, p, n) then JsonAt(blocks, p + 1, c) else c.empty)
  }

  /** The cells of the first m blocks, numbered in order. */
  function CellsAt(blocks: seq<Block>, m: nat, n: nat, c: Codec): seq<Cell>
    requires m <= n <= |blocks|
  {
    if m == 0 then []
    else
      var before := CellsAt(blocks, m - 1, n, c);
      if IsMeta(blocks[m - 1]) then before else before + [CellAt(blocks, m - 1, n, |before|, c)]
  }

  /** The cell magic of a code block. */
  function MagicAt(blocks: seq<Block>, p: nat): Option<string>
    requires p < |blocks|
  {
    FirstMagic(Decoded(Content(blocks[p].raw)))
  }

  function LanguageIn(j: Json): Language {
    if j.Object? then j.language else Unset
  }

  predicate AfterCode(blocks: seq<Block>, p: nat)
    requires p <= |blocks|
  {
    p > 0 && IsCode(blocks[p - 1])
  }

  /** What is said when block p is reached. */
  function WarningsAt(blocks: seq<Block>, p: nat, c: Codec): seq<Warning>
    requires p < |blocks|
  {
    if IsMeta(blocks[p]) then
      MetaWarnings(Content(blocks[p].raw), blocks[p].line, c)
      + if p == 0 then []
        else if AfterCode(blocks, p) then
          Clash(MagicAt(blocks, p - 1), LanguageIn(JsonAt(blocks, p, c)), blocks[p - 1].line)
        else [OrphanMetadata(blocks[p].line)]
    else if AfterCode(blocks, p) then [NoMetadata(blocks[p - 1].line)]
    else []
  }

  function WarningsUpTo(blocks: seq<Block>, n: nat, c: Codec): seq<Warning>
    requires n <= |blocks|
  {
    if n == 0 then [] else WarningsUpTo(blocks, n - 1, c) + WarningsAt(blocks, n - 1, c)
  }

  // ---- the parser's state ----

  /** After the first n blocks, when none of them made the parser raise. */
  function StateAt(blocks: seq<Block>, n: nat, w: seq<Warning>, c: Codec): State
    requires n <= |blocks|
  {
    Running(if n > 0 && IsMeta(blocks[0]) then JsonAt(blocks, 0, c) else c.empty,
            CellsAt(blocks, n, n, c), AfterCode(blocks, n), w + WarningsUpTo(blocks, n, c))
  }

  /** A later block tells nothing new about a cell but the last. */
  lemma {:induction false} CellsKnown(blocks: seq<Block>, m: nat, n: nat, c: Codec)
    requires m <= n < |blocks| && (m == n ==> n == 0 || !HasMeta(blocks, n - 1, n + 1))
    ensures CellsAt(blocks, m, n + 1, c) == CellsAt(blocks, m, n, c)
  {
    hide CellOf, JsonAt, IsCode, IsMeta;
    if m == 0 {
    } else {
      CellsKnown(blocks, m - 1, n, c);
    }
  }

  lemma LastCell(blocks: seq<Block>, n: nat, c: Codec)
    requires 0 < n <= |blocks| && IsCode(blocks[n - 1])
    ensures var cells := CellsAt(blocks, n, n, c);
            && cells == CellsAt(blocks, n - 1, n, c) + [CellAt(blocks, n - 1, n, |cells| - 1, c)]
            && cells[|cells| - 1].line == blocks[n - 1].line
            && cells[|cells| - 1].cellMagic == MagicAt(blocks, n - 1)
            && cells[|cells| - 1].kind != Markdown
  {
    hide Content, Decoded, FirstMagic, WithoutMagic;
  }

  lemma StateFine(blocks: seq<Block>, n: nat, w: seq<Warning>, c: Codec)
    requires n <= |blocks|
    ensures Fine(StateAt(blocks, n, w, c))
  {
    hide CellOf, CellsAt;
    if AfterCode(blocks, n) {
      LastCell(blocks, n, c);
    }
  }

  // The three things that a block can do, of any state.

  lemma AttachStep(s: State, b: Block, c: Codec)
    requires Fine(s) && s.Running? && s.pending && IsMeta(b) && !LoadsFail(b, c) && !BadMeta(b, c)
    ensures var obj, last := MetaOf(Content(b.raw), c), s.cells[|s.cells| - 1];
            Step(s, b, false, c) ==
            Running(s.meta, s.cells[..|s.cells| - 1] + [last.(meta := obj)], false,
                    s.warnings + MetaWarnings(Content(b.raw), b.line, c)
                    + Clash(last.cellMagic, LanguageIn(obj), last.line))
  {
    hide Content, Clash, MetaWarnings, Meta, MetaOf;
  }

  lemma MetaStep(s: State, b: Block, first: bool, c: Codec)
    requires Fine(s) && s.Running? && !s.pending && IsMeta(b) && !LoadsFail(b, c)
    ensures var obj := MetaOf(Content(b.raw), c);
            Step(s, b, first, c) ==
            Running(if first then obj else s.meta, s.cells, false,
                    s.warnings + MetaWarnings(Content(b.raw), b.line, c)
                    + if first then [] else [OrphanMetadata(b.line)])
  {
    hide Content, Clash, Meta, MetaOf;
    var warnings := s.warnings + MetaWarnings(Content(b.raw), b.line, c);
    assert warnings + [] == warnings;
  }

  lemma CellStep(s: State, b: Block, first: bool, c: Codec)
    requires Fine(s) && s.Running? && !IsMeta(b)
    ensures Step(s, b, first, c)
         == Running(s.meta, s.cells + [CellOf(b, |s.cells|, c)], IsCode(b),
                    s.warnings + if s.pending then [NoMetadata(s.cells[|s.cells| - 1].line)] else [])
  {
    hide Content, Clash, Meta, MetaOf, CellOf;
  }

  lemma AttachedCells(blocks: seq<Block>, n: nat, c: Codec)
    requires 0 < n < |blocks| && IsMeta(blocks[n]) && IsCode(blocks[n - 1])
    ensures var before := CellsAt(blocks, n - 1, n, c);
            var cell := CellAt(blocks, n - 1, n, |before|, c);
            && CellsAt(blocks, n, n, c) == before + [cell]
            && CellsAt(blocks, n + 1, n + 1, c) == before + [cell.(meta := JsonAt(blocks, n, c))]
  {
    hide CellOf, JsonAt, CellsAt, CellAt, HasMeta, IsMeta, IsCode;
    CellsKnown(blocks, n - 1, n, c);
    CellsEnd(blocks, n, c);
    LastOfNext(blocks, n, c);
  }

  lemma CellsEnd(blocks: seq<Block>, n: nat, c: Codec)
    requires 0 < n <= |blocks| && IsCode(blocks[n - 1])
    ensures var before := CellsAt(blocks, n - 1, n, c);
            CellsAt(blocks, n, n, c) == before + [CellAt(blocks, n - 1, n, |before|, c)]
  {
    hide CellAt;
  }

  lemma DropLast<T>(s: seq<T>, x: T)
    ensures (s + [x])[..|s + [x]| - 1] == s && (s + [x])[|s + [x]| - 1] == x
  {
  }

  lemma LastOfNext(blocks: seq<Block>, n: nat, c: Codec)
    requires 0 < n < |blocks| && IsMeta(blocks[n]) && IsCode(blocks[n - 1])
    ensures var before := CellsAt(blocks, n - 1, n + 1, c);
            && CellsAt(blocks, n + 1, n + 1, c) == before + [CellAt(blocks, n - 1, n + 1, |before|, c)]
            && CellAt(blocks, n - 1, n + 1, |before|, c)
            == CellAt(blocks, n - 1, n, |before|, c).(meta := JsonAt(blocks, n, c))
  {
    hide CellOf, JsonAt;
    assert !IsMeta(blocks[n - 1]);
    assert CellsAt(blocks, n + 1, n + 1, c) == CellsAt(blocks, n, n + 1, c);
  }

  /** One block's step, METADATA of a code cell. */
  lemma AttachIs(blocks: seq<Block>, n: nat, w: seq<Warning>, c: Codec)
    requires 0 < n < |blocks| && IsMeta(blocks[n]) && IsCode(blocks[n - 1]) && !RaisesAt(blocks, n, c)
    ensures Fine(StateAt(blocks, n, w, c))
    ensures Step(StateAt(blocks, n, w, c), blocks[n], false, c) == StateAt(blocks, n + 1, w, c)
  {
    StateFine(blocks, n, w, c);
    NotRaised(blocks, n, c);
    var s, cells := StateAt(blocks, n, w, c), CellsAt(blocks, n, n, c);
    LastCell(blocks, n, c);
    AttachedCells(blocks, n, c);
    DropLast(CellsAt(blocks, n - 1, n, c), CellAt(blocks, n - 1, n, |CellsAt(blocks, n - 1, n, c)|, c));
    AttachStep(s, blocks[n], c);
    AttachedWarnings(blocks, n, w, c);
    hide Step, Fine, Content, Clash, MetaWarnings, MetaOf, CellsAt, CellAt, MagicAt, WarningsUpTo, RaisesAt, LanguageIn;
    hide LoadsFail, BadMeta;
  }

  lemma NotRaised(blocks: seq<Block>, n: nat, c: Codec)
    requires n < |blocks| && !RaisesAt(blocks, n, c)
    ensures !LoadsFail(blocks[n], c) && (AfterCode(blocks, n) ==> !BadMeta(blocks[n], c))
  {
    hide LoadsFail, BadMeta;
  }

  lemma AttachedWarnings(blocks: seq<Block>, n: nat, w: seq<Warning>, c: Codec)
    requires 0 < n < |blocks| && IsMeta(blocks[n]) && IsCode(blocks[n - 1])
    ensures w + WarningsUpTo(blocks, n + 1, c)
         == w + WarningsUpTo(blocks, n, c) + MetaWarnings(Content(blocks[n].raw), blocks[n].line, c)
            + Clash(MagicAt(blocks, n - 1), LanguageIn(JsonAt(blocks, n, c)), blocks[n - 1].line)
  {
    hide Content, Clash, MetaWarnings, MagicAt, LanguageIn, JsonAt;
    var clash := Clash(MagicAt(blocks, n - 1), LanguageIn(JsonAt(blocks, n, c)), blocks[n - 1].line);
    var said := MetaWarnings(Content(blocks[n].raw), blocks[n].line, c);
    assert w + (WarningsUpTo(blocks, n, c) + (said + clash)) == w + WarningsUpTo(blocks, n, c) + said + clash;
  }

  /** Any other METADATA. */
  lemma MetaIs(blocks: seq<Block>, n: nat, w: seq<Warning>, c: Codec)
    requires n < |blocks| && IsMeta(blocks[n]) && !AfterCode(blocks, n) && !RaisesAt(blocks, n, c)
    ensures Fine(StateAt(blocks, n, w, c))
    ensures Step(StateAt(blocks, n, w, c), blocks[n], n == 0, c) == StateAt(blocks, n + 1, w, c)
  {
    StateFine(blocks, n, w, c);
    NotRaised(blocks, n, c);
    CellsKnown(blocks, n, n, c);
    NextCell(blocks, n, c);
    MetaStep(StateAt(blocks, n, w, c), blocks[n], n == 0, c);
    OtherWarnings(blocks, n, w, c);
    hide Step, Fine, Content, Clash, MetaWarnings, MetaOf, CellsAt, CellAt, HasMeta, WarningsUpTo, RaisesAt, LoadsFail;
    hide BadMeta, CellOf;
  }

  lemma OtherWarnings(blocks: seq<Block>, n: nat, w: seq<Warning>, c: Codec)
    requires n < |blocks| && !(IsMeta(blocks[n]) && AfterCode(blocks, n))
    ensures w + WarningsUpTo(blocks, n + 1, c)
         == w + WarningsUpTo(blocks, n, c)
            + (if IsMeta(blocks[n]) then MetaWarnings(Content(blocks[n].raw), blocks[n].line, c) else [])
            + (if IsMeta(blocks[n]) && n > 0 then [OrphanMetadata(blocks[n].line)] else [])
            + if AfterCode(blocks, n) then [NoMetadata(blocks[n - 1].line)] else []
  {
    hide Content, MetaWarnings, IsMeta, IsCode;
    var said := if IsMeta(blocks[n]) then MetaWarnings(Content(blocks[n].raw), blocks[n].line, c) else [];
    var orphan := if IsMeta(blocks[n]) && n > 0 then [OrphanMetadata(blocks[n].line)] else [];
    var none := if AfterCode(blocks, n) then [NoMetadata(blocks[n - 1].line)] else [];
    assert WarningsAt(blocks, n, c) == said + orphan + none;
    var so := WarningsUpTo(blocks, n, c);
    assert w + (so + (said + orphan + none)) == w + so + said + orphan + none;
  }

  /** And any block that gives a cell. */
  lemma CellIs(blocks: seq<Block>, n: nat, w: seq<Warning>, c: Codec)
    requires n < |blocks| && !IsMeta(blocks[n])
    ensures Fine(StateAt(blocks, n, w, c))
    ensures Step(StateAt(blocks, n, w, c), blocks[n], n == 0, c) == StateAt(blocks, n + 1, w, c)
  {
    hide Step, Fine, Content, CellsAt, CellAt, WarningsUpTo, CellOf, MagicAt;
    StateFine(blocks, n, w, c);
    if AfterCode(blocks, n) {
      LastCell(blocks, n, c);
    }
    CellsKnown(blocks, n, n, c);
    NextCell(blocks, n, c);
    CellStep(StateAt(blocks, n, w, c), blocks[n], n == 0, c);
    OtherWarnings(blocks, n, w, c);
  }

  lemma StepIs(blocks: seq<Block>, n: nat, w: seq<Warning>, c: Codec)
    requires n < |blocks| && !RaisesAt(blocks, n, c)
    ensures Fine(StateAt(blocks, n, w, c))
    ensures Step(StateAt(blocks, n, w, c), blocks[n], n == 0, c) == StateAt(blocks, n + 1, w, c)
  {
    hide StateAt, RaisesAt, Step;
    StateFine(blocks, n, w, c);
    if !IsMeta(blocks[n]) {
      CellIs(blocks, n, w, c);
    } else if AfterCode(blocks, n) {
      AttachIs(blocks, n, w, c);
    } else {
      MetaIs(blocks, n, w, c);
    }
  }

  /** A block that is not METADATA gives a cell, whose metadata is not known yet. */
  lemma NextCell(blocks: seq<Block>, n: nat, c: Codec)
    requires n < |blocks|
    ensures CellsAt(blocks, n + 1, n + 1, c)
         == CellsAt(blocks, n, n + 1, c)
            + if IsMeta(blocks[n]) then [] else [CellOf(blocks[n], |CellsAt(blocks, n, n + 1, c)|, c)]
  {
    hide Content, Decoded, FirstMagic, WithoutMagic;
  }

  lemma {:induction false} RunIs(blocks: seq<Block>, n: nat, w: seq<Warning>, c: Codec)
    requires n <= |blocks|
    ensures Fine(StateAt(blocks, n, w, c))
    ensures Run(StateAt(blocks, n, w, c), blocks[n..], n == 0, c)
         == if exists p :: p >= n && RaisesAt(blocks, p, c) then Raised else StateAt(blocks, |blocks|, w, c)
    decreases |blocks| - n
  {
    hide StateAt, Step, RaisesAt;
    StateFine(blocks, n, w, c);
    if n == |blocks| {
      NothingRaises(blocks, n, c);
    } else {
      assert blocks[n..][1..] == blocks[n + 1..] && blocks[n..][0] == blocks[n];
      RunIs(blocks, n + 1, w, c);
      if RaisesAt(blocks, n, c) {
        RaisedIs(blocks, n, w, c);
        StaysRaised(blocks[n + 1..], c);
      } else {
        StepIs(blocks, n, w, c);
      }
    }
  }

  lemma NothingRaises(blocks: seq<Block>, n: nat, c: Codec)
    requires n >= |blocks|
    ensures !exists p :: p >= n && RaisesAt(blocks, p, c)
  {
  }

  lemma RaisedIs(blocks: seq<Block>, n: nat, w: seq<Warning>, c: Codec)
    requires n < |blocks| && RaisesAt(blocks, n, c)
    ensures Fine(StateAt(blocks, n, w, c))
    ensures Step(StateAt(blocks, n, w, c), blocks[n], n == 0, c) == Raised
  {
    StateFine(blocks, n, w, c);
    StepFacts(StateAt(blocks, n, w, c), blocks[n], n == 0, c);
  }

  /** A file that does not make the parser raise is the notebook of its blocks: the first one's JSON
      if that is METADATA; a cell for every other block that is not, with the JSON of the METADATA
      right behind it if it is code; and a warning for everything that is not as it should be. */
  lemma ParseIsLocal(lines: seq<string>, c: Codec)
    ensures var blocks := FileBlocks(lines);
            ParseLines(lines, c) ==
            if exists p :: RaisesAt(blocks, p, c) then Exception
            else
              Parsed(
                Notebook(if blocks != [] && IsMeta(blocks[0]) then JsonAt(blocks, 0, c) else c.empty,
                         CellsAt(blocks, |blocks|, |blocks|, c)),
                FileWarnings(lines) + WarningsUpTo(blocks, |blocks|, c)
                + (if AfterCode(blocks, |blocks|) then [NoMetadata(blocks[|blocks| - 1].line)] else [])
                + if blocks == [] || !IsMeta(blocks[0]) then [NoFileMetadata] else [])
  {
    hide FileBlocks, FileWarnings, RaisesAt, Run, CellOf, JsonAt, WarningsAt, Clash;
    var blocks := FileBlocks(lines);
    RunIs(blocks, 0, FileWarnings(lines), c);
    assert blocks[0..] == blocks;
    assert FileWarnings(lines) + [] == FileWarnings(lines);
    if AfterCode(blocks, |blocks|) {
      LastCell(blocks, |blocks|, c);
    }
    assert (exists p :: RaisesAt(blocks, p, c)) <==> exists p :: p >= 0 && RaisesAt(blocks, p, c) by {
      RaisesInside(blocks, c);
    }
  }

  lemma RaisesInside(blocks: seq<Block>, c: Codec)
    ensures forall p :: RaisesAt(blocks, p, c) ==> 0 <= p < |blocks|
  {
  }
}
