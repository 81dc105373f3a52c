/**
  The ledger as a text file, one JSON block a line (`read_chain` and the append in `seal_run` of
  `sentinel/vault.py`). Lines that do not parse are skipped, as the source does with a warning.
 */
module LedgerFile {
  import opened Prelude
  import opened Ledger

  /** JSON printing and parsing of one block; `parse` gives None where the source logs and skips. */
  datatype Codec = Codec(dump: Block -> string, parse: string -> Option<Block>)

  /** The characters at which Python's `splitlines` ends a line. */
  predicate IsBreak(c: char) {
    || c == '\n' || c == '\r' || c == '\U{0B}' || c == '\U{0C}' || '\U{1C}' <= c <= '\U{1E}'
    || c == '\U{85}' || c == '\U{2028}' || c == '\U{2029}'
  }

  /** The characters that Python's `strip` removes. */
  predicate IsSpace(c: char) {
    || IsBreak(c) || c == ' ' || c == '\t' || c == '\U{1F}' || c == '\U{A0}' || c == '\U{1680}'
    || '\U{2000}' <= c <= '\U{200A}' || c == '\U{202F}' || c == '\U{205F}' || c == '\U{3000}'
  }

  predicate Blank(s: string) {
    forall i :: 0 <= i < |s| ==> IsSpace(s[i])
  }

  function StripLeft(s: string): string {
    if s != [] && IsSpace(s[0]) then StripLeft(s[1..]) else s
  }

  function StripRight(s: string): string {
    if s != [] && IsSpace(s[|s| - 1]) then StripRight(s[..|s| - 1]) else s
  }

  function Strip(s: string): string {
    StripRight(StripLeft(s))
  }

  /** The lines of a text; the part after the last break counts as a line even when it is empty. */
  function Lines(text: string): (r: seq<string>)
    ensures r != []
  {
    if text == [] then [""]
    else
      var rest := Lines(text[1..]);
      if IsBreak(text[0]) then [""] + rest else [[text[0]] + rest[0]] + rest[1..]
  }

  function LastLine(text: string): string {
    var lines := Lines(text);
    lines[|lines| - 1]
  }

  function ReadLine(c: Codec, line: string): seq<Block> {
    var stripped := Strip(line);
    if stripped == [] then []
    else match c.parse(stripped)
      case Some(b) => [b]
      case None => []
  }

  function ReadLines(c: Codec, lines: seq<string>): seq<Block> {
    if lines == [] then [] else ReadLine(c, lines[0]) + ReadLines(c, lines[1..])
  }

  function ReadChain(c: Codec, text: string): seq<Block> {
    ReadLines(c, Lines(text))
  }

  function AppendBlock(c: Codec, text: string, b: Block): string {
    text + c.dump(b) + "\n"
  }

  /** A printed block is one non-blank line without outer white space that parses back to the block. */
  ghost predicate PrintsBack(c: Codec, b: Block) {
    var d := c.dump(b);
    && d != []
    && (forall i :: 0 <= i < |d| ==> !IsBreak(d[i]))
    && !IsSpace(d[0]) && !IsSpace(d[|d| - 1])
    && c.parse(d) == Some(b)
  }

  /** The file ends where a new line may start: nothing but white space after the last break. */
  predicate EndsClean(text: string) {
    Blank(LastLine(text))
  }

  // ----- reading what was appended --------------------------------------------------------------

  /** The lines once a character is put in front of the text. */
  function WithFirst(c: char, lines: seq<string>): seq<string>
    requires lines != []
  {
    if IsBreak(c) then [""] + lines else [[c] + lines[0]] + lines[1..]
  }

  lemma LineInFront(c: char, a: seq<string>, b: seq<string>)
    requires a != []
    ensures WithFirst(c, a + b) == WithFirst(c, a) + b
  {
    assert (a + b)[1..] == a[1..] + b;
  }

  lemma {:induction false} LinesAfterBreak(a: string, c: char, b: string)
    requires IsBreak(c)
    ensures Lines(a + [c] + b) == Lines(a) + Lines(b)
  {
    var whole := a + [c] + b;
    if a == [] {
      assert whole[0] == c && whole[1..] == b;
    } else {
      var rest := a[1..] + [c] + b;
      assert whole[0] == a[0] && whole[1..] == rest;
      LinesAfterBreak(a[1..], c, b);
      LineInFront(a[0], Lines(a[1..]), Lines(b));
      assert Lines(whole) == WithFirst(a[0], Lines(rest));
      assert Lines(a) == WithFirst(a[0], Lines(a[1..]));
    }
  }

  lemma {:induction false} LinesOfExtension(a: string, d: string)
    requires forall i :: 0 <= i < |d| ==> !IsBreak(d[i])
    ensures Lines(a + d) == Lines(a)[..|Lines(a)| - 1] + [LastLine(a) + d]
  {
    if a == [] {
      LineWithoutBreak(d);
      assert a + d == d;
    } else {
      assert (a + d)[1..] == a[1..] + d && (a + d)[0] == a[0];
      LinesOfExtension(a[1..], d);
      MoreInFront(a[0], Lines(a[1..]), d);
      assert Lines(a + d) == InFront(a[0], Lines(a[1..] + d));
    }
  }

  /** The lines of a text with one more character in front. */
  function InFront(c: char, lines: seq<string>): (r: seq<string>)
    requires lines != []
    ensures r != []
  {
    if IsBreak(c) then [""] + lines else [[c] + lines[0]] + lines[1..]
  }

  lemma MoreInFront(c: char, lines: seq<string>, d: string)
    requires lines != []
    ensures var (longer, front) := (lines[..|lines| - 1] + [lines[|lines| - 1] + d], InFront(c, lines));
      InFront(c, longer) == front[..|front| - 1] + [front[|front| - 1] + d]
  {
    var longer := lines[..|lines| - 1] + [lines[|lines| - 1] + d];
    if IsBreak(c) {
      assert [""] + longer == ([""] + lines)[..|lines|] + [lines[|lines| - 1] + d];
    } else if |lines| == 1 {
      assert [c] + (lines[0] + d) == ([c] + lines[0]) + d;
    } else {
      assert longer[1..] == lines[1..][..|lines| - 2] + [lines[|lines| - 1] + d];
    }
  }

  lemma {:induction false} LineWithoutBreak(d: string)
    requires forall i :: 0 <= i < |d| ==> !IsBreak(d[i])
    ensures Lines(d) == [d]
  {
    if d != [] {
      LineWithoutBreak(d[1..]);
      assert d == [d[0]] + d[1..];
    }
  }

  /** The ten characters that end a line, and the further nineteen that count as white space. */
  lemma BreaksAndSpaces(c: char)
    ensures IsBreak(c) <==> c in ['\n', '\r', '\U{0B}', '\U{0C}', '\U{1C}', '\U{1D}', '\U{1E}', '\U{85}', '\U{2028}', '\U{2029}']
    ensures IsSpace(c) && !IsBreak(c) <==>
      c in [' ', '\t', '\U{1F}', '\U{A0}', '\U{1680}', '\U{2000}', '\U{2001}', '\U{2002}', '\U{2003}', '\U{2004}', '\U{2005}',
            '\U{2006}', '\U{2007}', '\U{2008}', '\U{2009}', '\U{200A}', '\U{202F}', '\U{205F}', '\U{3000}']
  {
  }

  /** JSON is printed in plain ASCII without breaks, so a printed block is one line. */
  lemma PlainTextIsOneLine(d: string)
    requires forall i :: 0 <= i < |d| ==> ' ' <= d[i] <= '~'
    ensures Lines(d) == [d]
  {
    LineWithoutBreak(d);
  }

  /** Stripping cuts off white space on both sides, and all of it. */
  lemma StripCutsSpace(s: string)
    ensures var r := Strip(s);
      && (exists i, j :: 0 <= i <= j <= |s| && Blank(s[..i]) && r == s[i..j] && Blank(s[j..]))
      && (r != "" ==> !IsSpace(r[0]) && !IsSpace(r[|r| - 1]))
  {
    var left := StripLeft(s);
    StripLeftCuts(s);
    StripRightCuts(left);
    var r := StripRight(left);
    var i, j := |s| - |left|, |s| - |left| + |r|;
    assert s[i..j] == left[..|r|] && s[j..] == left[|r|..];
  }

  lemma {:induction false} StripLeftCuts(s: string)
    ensures var r := StripLeft(s);
      |r| <= |s| && s[|s| - |r|..] == r && Blank(s[..|s| - |r|]) && (r != "" ==> !IsSpace(r[0]))
  {
    if s != [] && IsSpace(s[0]) {
      var rest, r := s[1..], StripLeft(s[1..]);
      StripLeftCuts(rest);
      var n := |rest| - |r|;
      assert StripLeft(s) == r && s[n + 1..] == rest[n..];
      assert s[..n + 1] == [s[0]] + rest[..n];
    }
  }

  lemma {:induction false} StripRightCuts(s: string)
    ensures var r := StripRight(s);
      |r| <= |s| && s[..|r|] == r && Blank(s[|r|..]) && (r != "" ==> !IsSpace(r[|r| - 1]))
  {
    if s != [] && IsSpace(s[|s| - 1]) {
      var rest, r := s[..|s| - 1], StripRight(s[..|s| - 1]);
      StripRightCuts(rest);
      var n := |r|;
      assert StripRight(s) == r && s[..n] == rest[..n];
      assert s[n..] == rest[n..] + [s[|s| - 1]];
    }
  }

  lemma {:induction false} ReadLinesOfConcat(c: Codec, a: seq<string>, b: seq<string>)
    ensures ReadLines(c, a + b) == ReadLines(c, a) + ReadLines(c, b)
  {
    if a == [] {
      assert a + b == b;
    } else {
      assert (a + b)[1..] == a[1..] + b;
      ReadLinesOfConcat(c, a[1..], b);
    }
  }

  lemma {:induction false} StripLeftOfBlankPrefix(a: string, d: string)
    requires Blank(a) && (d == [] || !IsSpace(d[0]))
    ensures StripLeft(a + d) == d
  {
    if a == [] {
      assert a + d == d;
    } else {
      assert (a + d)[1..] == a[1..] + d;
      StripLeftOfBlankPrefix(a[1..], d);
    }
  }

  lemma BlankLineReadsNothing(c: Codec, line: string)
    requires Blank(line)
    ensures ReadLine(c, line) == []
  {
    assert line + [] == line;
    StripLeftOfBlankPrefix(line, []);
  }

  lemma PrintedLineReadsBack(c: Codec, pre: string, b: Block)
    requires Blank(pre) && PrintsBack(c, b)
    ensures ReadLine(c, pre + c.dump(b)) == [b]
  {
    var d := c.dump(b);
    StripLeftOfBlankPrefix(pre, d);
    assert StripRight(d) == d;
    assert Strip(pre + d) == d;
  }

  function LinesBeforeLast(text: string): seq<string> {
    Lines(text)[..|Lines(text)| - 1]
  }

  lemma ReadUpToLast(c: Codec, text: string)
    ensures ReadChain(c, text) == ReadLines(c, LinesBeforeLast(text)) + ReadLine(c, LastLine(text))
  {
    assert Lines(text) == LinesBeforeLast(text) + [LastLine(text)];
    ReadLinesOfConcat(c, LinesBeforeLast(text), [LastLine(text)]);
    ReadSingleLine(c, LastLine(text));
  }

  lemma LinesAfterAppend(c: Codec, text: string, b: Block)
    requires PrintsBack(c, b)
    ensures Lines(AppendBlock(c, text, b)) == LinesBeforeLast(text) + [LastLine(text) + c.dump(b)] + [""]
  {
    var d := c.dump(b);
    assert AppendBlock(c, text, b) == (text + d) + ['\n'] + "";
    LinesAfterBreak(text + d, '\n', "");
    LinesOfExtension(text, d);
  }

  /** An append only ever changes what the last line reads as, and leaves the file clean. */
  lemma ChainAfterAppend(c: Codec, text: string, b: Block)
    requires PrintsBack(c, b)
    ensures ReadChain(c, AppendBlock(c, text, b)) ==
      ReadLines(c, LinesBeforeLast(text)) + ReadLine(c, LastLine(text) + c.dump(b))
    ensures EndsClean(AppendBlock(c, text, b))
  {
    var after, before, line := AppendBlock(c, text, b), LinesBeforeLast(text), LastLine(text) + c.dump(b);
    LinesAfterAppend(c, text, b);
    assert LinesBeforeLast(after) == before + [line] && LastLine(after) == "";
    ReadUpToLast(c, after);
    ReadLinesOfConcat(c, before, [line]);
    ReadSingleLine(c, line);
    BlankLineReadsNothing(c, "");
  }

  /**
    Appending a printed block adds exactly that block to what the reader sees iff the last line read as
    nothing so far and reads as the block now. A partly written last line that is no JSON spoils both.
   */
  lemma AppendedBlockReadIff(c: Codec, text: string, b: Block)
    requires PrintsBack(c, b)
    ensures ReadChain(c, AppendBlock(c, text, b)) == ReadChain(c, text) + [b] <==>
      ReadLine(c, LastLine(text)) == [] && ReadLine(c, LastLine(text) + c.dump(b)) == [b]
  {
    var before, was, now := ReadLines(c, LinesBeforeLast(text)), ReadLine(c, LastLine(text)), ReadLine(c, LastLine(text) + c.dump(b));
    ReadUpToLast(c, text);
    ChainAfterAppend(c, text, b);
    SuffixesCancel(before, now, was + [b]);
    assert before + was + [b] == before + (was + [b]);
    assert |now| <= 1;
  }

  lemma SuffixesCancel<T>(before: seq<T>, a: seq<T>, b: seq<T>)
    ensures before + a == before + b <==> a == b
  {
    assert (before + a)[|before|..] == a && (before + b)[|before|..] == b;
  }

  /** When the joined last line does not parse, the appended block is lost, and with it whatever the line read as. */
  lemma AppendedBlockIsLost(c: Codec, text: string, b: Block)
    requires PrintsBack(c, b) && c.parse(Strip(LastLine(text) + c.dump(b))) == None
    ensures ReadChain(c, AppendBlock(c, text, b)) == ReadLines(c, LinesBeforeLast(text))
    ensures ReadChain(c, AppendBlock(c, text, b)) <= ReadChain(c, text)
  {
    ReadUpToLast(c, text);
    ChainAfterAppend(c, text, b);
  }

  /**
    On a file that ends clean, as every append leaves it, the block is read, however many unreadable
    lines the file already held.
   */
  lemma AppendedBlockIsRead(c: Codec, text: string, b: Block)
    requires EndsClean(text) && PrintsBack(c, b)
    ensures ReadChain(c, AppendBlock(c, text, b)) == ReadChain(c, text) + [b]
    ensures EndsClean(AppendBlock(c, text, b))
  {
    BlankLineReadsNothing(c, LastLine(text));
    PrintedLineReadsBack(c, LastLine(text), b);
    AppendedBlockReadIff(c, text, b);
    ChainAfterAppend(c, text, b);
  }

  lemma ReadSingleLine(c: Codec, line: string)
    ensures ReadLines(c, [line]) == ReadLine(c, line)
  {
    assert ReadLines(c, [line][1..]) == [];
  }

  // ----- a whole ledger ---------------------------------------------------------------------------

  /** The text that sealing these blocks one after the other leaves. */
  function Written(c: Codec, blocks: seq<Block>): string {
    if blocks == [] then "" else AppendBlock(c, Written(c, blocks[..|blocks| - 1]), blocks[|blocks| - 1])
  }

  /** Reading a ledger gives the blocks that were written, in order. */
  lemma {:induction false} LedgerReadsBack(c: Codec, blocks: seq<Block>)
    requires forall i :: 0 <= i < |blocks| ==> PrintsBack(c, blocks[i])
    ensures ReadChain(c, Written(c, blocks)) == blocks && EndsClean(Written(c, blocks))
  {
    if blocks == [] {
      assert Lines("") == [""];
      BlankLineReadsNothing(c, "");
      ReadSingleLine(c, "");
    } else {
      var n := |blocks| - 1;
      LedgerReadsBack(c, blocks[..n]);
      AppendedBlockIsRead(c, Written(c, blocks[..n]), blocks[n]);
      assert blocks == blocks[..n] + [blocks[n]];
    }
  }
}
