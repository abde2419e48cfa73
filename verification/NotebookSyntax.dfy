/** What single lines of a notebook source mean, spelled out (notebook.py). */
module NotebookSyntax {
  import opened Text
  import opened NotebookFormat

  // ---- the constants of the format ----

  /** The four marker lines, and the header. */
  lemma MarkersAreSpelled()
    ensures ParseMarker("# METADATA " + "********************") == Some(Marker(MetadataBlock, 20))
    ensures ParseMarker("# CELL " + "********************") == Some(Marker(CellBlock, 20))
    ensures ParseMarker("# MARKDOWN " + "********************") == Some(Marker(MarkdownBlock, 20))
    ensures ParseMarker("# PARAMETERS CELL " + "********************") == Some(Marker(ParametersBlock, 20))
  {
    hide *;
    SpelledOut(MetadataBlock);
    SpelledOut(CellBlock);
    SpelledOut(MarkdownBlock);
    SpelledOut(ParametersBlock);
    PrefixIs(MetadataBlock);
    PrefixIs(CellBlock);
    PrefixIs(MarkdownBlock);
    PrefixIs(ParametersBlock);
  }

  lemma SpelledOut(k: BlockKind)
    ensures ParseMarker(MarkerPrefix(k) + "********************") == Some(Marker(k, 20))
  {
    hide ParseMarker, MarkerPrefix;
    assert seq(20, _ => '*') == "********************";
    MarkerInverts(k, 20);
  }

  lemma PrefixIs(k: BlockKind)
    ensures MarkerPrefix(k) == match k
                               case MetadataBlock => "# METADATA "
                               case CellBlock => "# CELL "
                               case MarkdownBlock => "# MARKDOWN "
                               case ParametersBlock => "# PARAMETERS CELL "
  {
  }

  lemma HeaderIs(lines: seq<string>)
    ensures HeaderWarnings(["# Fabric notebook source"] + lines) == []
    ensures HeaderWarnings(lines) == [] || HeaderWarnings(lines) == [NoHeader]
    ensures HeaderWarnings(lines) == [] ==> lines != [] && lines[0] == "# Fabric notebook source"
  {
  }

  // ---- white space ----

  /** Stripping takes white space off both ends, and leaves none there. */
  lemma {:induction false} StripIs(l: string) returns (a: string, b: string)
    ensures l == a + Strip(l) + b
    ensures (forall ch <- a :: IsSpace(ch)) && (forall ch <- b :: IsSpace(ch))
    ensures Strip(l) != "" ==> !IsSpace(Strip(l)[0]) && !IsSpace(Strip(l)[|Strip(l)| - 1])
    decreases |l|
  {
    hide IsSpace;
    a, b := "", "";
    if l == "" {
    } else if IsSpace(l[0]) {
      a, b := StripIs(l[1..]);
      a := [l[0]] + a;
      assert l == [l[0]] + l[1..] && Strip(l) == Strip(l[1..]);
    } else if IsSpace(l[|l| - 1]) {
      a, b := StripIs(l[..|l| - 1]);
      b := b + [l[|l| - 1]];
      assert l == l[..|l| - 1] + [l[|l| - 1]] && Strip(l) == Strip(l[..|l| - 1]);
    } else {
      assert Strip(l) == l == "" + l + "";
    }
  }

  lemma {:induction false} BlankIff(l: string)
    ensures Blank(l) <==> forall ch <- l :: IsSpace(ch)
  {
    hide IsSpace;
    var a, b := StripIs(l);
    if Blank(l) {
      assert l == a + b;
    } else {
      assert Strip(l)[0] in l;
    }
  }

  // ---- magics ----

  /** `!` or one `%` at the start of a line and then no white space: `!pip`, `%pip`, `%run`; not `%%sql`. */
  lemma LineMagicIff(l: string)
    ensures IsLineMagic(l) <==> |l| >= 2 && l[0] in "!%" && l[1] != '%' && !IsSpace(l[1])
    ensures IsLineMagic("!pip install x") && IsLineMagic("%pip install x") && IsLineMagic("%run other")
    ensures !IsLineMagic("%%sql") && !IsLineMagic("!") && !IsLineMagic("% x") && !IsLineMagic(" !pip")
    ensures !IsLineMagic("x = 1") && !IsLineMagic("")
  {
  }

  lemma {:induction false} LineMagicsConcat(a: seq<string>, b: seq<string>)
    ensures LineMagics(a + b) == LineMagics(a) + LineMagics(b)
    ensures |a| == 1 ==> LineMagics(a) == if IsLineMagic(a[0]) then a else []
  {
    hide IsLineMagic;
    if a == [] {
      assert a + b == b;
    } else {
      assert (a + b)[1..] == a[1..] + b && (a + b)[0] == a[0];
      LineMagicsConcat(a[1..], b);
      var first, more := if IsLineMagic(a[0]) then [a[0]] else [], LineMagics(a[1..]);
      assert LineMagics(a + b) == first + (more + LineMagics(b)) == first + more + LineMagics(b);
    }
  }

  /** Only python cells have line magics; the language is python without a cell magic, Spark SQL
      for `%%sql`, and the magic's own name otherwise. */
  lemma LanguagesAre(name: string, lines: seq<string>)
    ensures LanguageOf(None) == "python" && LanguageOf(Some("sql")) == "sparksql"
    ensures name != "sql" ==> LanguageOf(Some(name)) == name
    ensures MagicsOf("python", lines) == LineMagics(lines)
    ensures name != "python" ==> MagicsOf(name, lines) == []
  {
  }

  /** ASCII letters, digits and `_`. */
  lemma WordCharsAre(ch: char)
    ensures IsWordChar(ch) <==> var n := ch as int; 48 <= n <= 57 || 65 <= n <= 90 || n == 95 || 97 <= n <= 122
  {
  }

  /** The stripped line is `%%`, all of a word, and what comes after it. */
  ghost predicate IsMagic(l: string, word: string, rest: string) {
    && Strip(l) == "%%" + word + rest && word != "" && (forall ch <- word :: IsWordChar(ch))
    && (rest == "" || !IsWordChar(rest[0]))
  }

  /** A cell magic: the word right after `%%`, in lower case, at the start of the stripped line. */
  lemma CellMagicIff(l: string, magic: string)
    ensures CellMagicOf(l) == Some(magic) <==> exists word, rest :: IsMagic(l, word, rest) && magic == Lower(word)
  {
    hide IsMagic, Lower, CellMagicOf;
    if CellMagicOf(l) == Some(magic) {
      var word, rest := CellMagicReads(l);
      assert IsMagic(l, word, rest) && magic == Lower(word);
    }
    forall word, rest | IsMagic(l, word, rest)
      ensures CellMagicOf(l) == Some(Lower(word))
    {
      CellMagicFound(l, word, rest);
    }
  }

  lemma CellMagicReads(l: string) returns (word: string, rest: string)
    requires CellMagicOf(l).Some?
    ensures IsMagic(l, word, rest) && CellMagicOf(l) == Some(Lower(word))
  {
    hide IsWordChar, Strip, Lower, WordPrefix;
    var t := Strip(l);
    WordPrefixIs(t[2..], "", "");
    word := WordPrefix(t[2..]);
    rest := t[2 + |word|..];
    WordPrefixIs(t[2..], word, rest);
    assert t[2..][0] == t[2] && word != "";
    assert t[2..] == word + t[2..][|word|..] && t[2..][|word|..] == rest;
    assert t == "%%" + t[2..] == "%%" + word + rest;
  }

  lemma CellMagicFound(l: string, word: string, rest: string)
    requires IsMagic(l, word, rest)
    ensures CellMagicOf(l) == Some(Lower(word))
  {
    hide IsWordChar, Strip, Lower, WordPrefix;
    var t := Strip(l);
    assert t[2..] == word + rest && t[2] == word[0] && word[0] in word;
    WordPrefixIs(t[2..], word, rest);
  }

  lemma {:induction false} WordPrefixIs(s: string, word: string, rest: string)
    ensures WordPrefix(s) <= s && (forall ch <- WordPrefix(s) :: IsWordChar(ch))
    ensures |WordPrefix(s)| < |s| ==> !IsWordChar(s[|WordPrefix(s)|])
    ensures s == word + rest && (forall ch <- word :: IsWordChar(ch)) && (rest == "" || !IsWordChar(rest[0])) ==>
              WordPrefix(s) == word
  {
    hide IsWordChar;
    if s == "" {
    } else if word == "" {
      if IsWordChar(s[0]) {
        WordPrefixIs(s[1..], "", "");
      }
    } else {
      if IsWordChar(s[0]) {
        WordPrefixIs(s[1..], word[1..], rest);
        if s == word + rest {
          assert s[1..] == word[1..] + rest;
          assert word == [s[0]] + word[1..];
        }
      } else if s == word + rest {
        assert s[0] in word;
      }
    }
  }

  /** The first line that is not blank decides: a cell magic is taken out, and nothing else. */
  lemma FirstMagicIs(blank: seq<string>, l: string, rest: seq<string>)
    requires (forall b <- blank :: Blank(b)) && !Blank(l)
    ensures FirstMagic(blank + [l] + rest) == CellMagicOf(l)
    ensures WithoutMagic(blank + [l] + rest)
         == if CellMagicOf(l).Some? then blank + rest else blank + [l] + rest
  {
    hide Blank, CellMagicOf;
    var lines := blank + [l] + rest;
    assert lines[|blank|] == l && forall i :: 0 <= i < |blank| ==> lines[i] in blank;
    assert FirstNonBlank(lines) == |blank|;
    assert lines[..|blank|] == blank && lines[|blank| + 1..] == rest;
  }

  // ---- prefixes ----

  /** What is under a MAGIC prefix. */
  lemma UnprefixedIs(rest: string, l: string)
    ensures Unprefixed("# MAGIC " + rest) == rest
    ensures Unprefixed("# MAGIC") == ""
    ensures !("# MAGIC " <= l) && Strip(l) != "# MAGIC" ==> Unprefixed(l) == l
  {
    assert ("# MAGIC " + rest)[8..] == rest;
    assert Strip("# MAGIC") == "# MAGIC";
  }

  /** A cell's lines are under it when each that is not blank begins with it, and there is one. */
  lemma DecodedIs(content: seq<string>)
    ensures (exists l <- content :: !Blank(l)) && (forall l <- content :: Blank(l) || "# MAGIC" <= l) ==>
              && |Decoded(content)| == |content|
              && forall i :: 0 <= i < |content| ==> Decoded(content)[i] == Unprefixed(content[i])
    ensures (forall l <- content :: Blank(l)) || (exists l <- content :: !Blank(l) && !("# MAGIC" <= l)) ==>
              Decoded(content) == content
  {
    hide Unprefixed, Blank;
  }

  /** A line of a markdown block. */
  lemma UnmarkedIs(rest: string, l: string)
    ensures Unmarked("# " + rest) == rest && Unmarked("#") == ""
    ensures !("# " <= l) && l != "#" ==> Unmarked(l) == l
  {
    assert ("# " + rest)[2..] == rest;
  }

  /** A line of a METADATA block. */
  lemma MetaLineIs(rest: string, l: string)
    ensures MetaLineOf("# META " + rest) == JsonText(rest)
    ensures MetaLineOf("# META") == JsonText("")
    ensures Blank(l) ==> MetaLineOf(l) == Empty
    ensures !Blank(l) && !("# META " <= l) && Strip(l) != "# META" ==> MetaLineOf(l) == Foreign
  {
    assert ("# META " + rest)[7..] == rest;
    assert Strip("# META") == "# META";
    assert "# META " <= l ==> l[0] == '#' && l[0] in l;
    BlankIff(l);
  }

  /** When a cell's metadata and its magic do not fit. */
  lemma ClashIs(magic: Option<string>, language: Language, line: nat)
    ensures Clash(magic, language, line) == [MetaSaysSparkSql(line)]
       <==> language == Named("sparksql") && magic != Some("sql")
    ensures Clash(magic, language, line) == [MetaSaysOther(line)]
       <==> magic == Some("sql") && language != Unset && language != Named("sparksql")
    ensures |Clash(magic, language, line)| <= 1
    ensures Clash(magic, language, line) != [] ==> Clash(magic, language, line)[0].line == line
  {
  }
}
