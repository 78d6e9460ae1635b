/** The word wrapper: its state on values, the class, and what every output looks like. */
module Writer {
  import opened Sequences

  /** `iswspace` in the C locale. */
  predicate IsSpace(c: char) { c == ' ' || '\t' <= c <= '\r' }

  predicate IsWord(w: string) { w != "" && forall i :: 0 <= i < |w| ==> !IsSpace(w[i]) }

  /** The length of the word that the text starts with. */
  function WordLength(s: string): (n: nat)
    ensures n <= |s|
  {
    if s == "" || IsSpace(s[0]) then 0 else 1 + WordLength(s[1..])
  }

  /** The maximal runs of other characters than white space. */
  function Words(s: string): seq<string>
    decreases |s|
  {
    if s == "" then []
    else if IsSpace(s[0]) then Words(s[1..])
    else [s[..WordLength(s)]] + Words(s[WordLength(s)..])
  }

  lemma DropNext(text: string, i: nat)
    requires i < |text|
    ensures text[i..][0] == text[i] && text[i..][1..] == text[i + 1..]
  {
  }

  lemma WordsStep(text: string, pos: nat, end: nat)
    requires pos < end <= |text| && !IsSpace(text[pos]) && WordLength(text[pos..]) == end - pos
    ensures Words(text[pos..]) == [text[pos..end]] + Words(text[end..])
  {
    assert text[pos..][..end - pos] == text[pos..end] && text[pos..][end - pos..] == text[end..];
  }

  method SplitIntoWords(text: string) returns (words: seq<string>)
    ensures words == Words(text)
  {
    words := [];
    var pos := 0;
    assert text[0..] == text;
    ghost var rest := Words(text[pos..]);
    while pos < |text|
      invariant pos <= |text|
      invariant rest == Words(text[pos..]) && words + rest == Words(text)
    {
      while pos < |text| && IsSpace(text[pos])
        invariant pos <= |text|
        invariant rest == Words(text[pos..])
      {
        DropNext(text, pos);
        pos := pos + 1;
      }
      var end := pos;
      ghost var length := WordLength(text[pos..]);
      while end < |text| && !IsSpace(text[end])
        invariant pos <= end <= |text| && (end == pos || !IsSpace(text[pos]))
        invariant length == end - pos + WordLength(text[end..])
      {
        DropNext(text, end);
        end := end + 1;
      }
      if end > pos {
        WordsStep(text, pos, end);
        rest := Words(text[end..]);
        Regroup(words, [text[pos..end]], rest);
        words := words + [text[pos..end]];
      }
      pos := end;
    }
  }

  // --------------------------------------------------------------- the paragraphs

  function BlankEnd(s: string, i: nat): (e: nat)
    requires i <= |s|
    ensures i <= e <= |s|
    decreases |s| - i
  {
    if i < |s| && (s[i] == ' ' || s[i] == '\t') then BlankEnd(s, i + 1) else i
  }

  function SpaceEnd(s: string, i: nat): (e: nat)
    requires i <= |s|
    ensures i <= e <= |s|
    decreases |s| - i
  {
    if i < |s| && IsSpace(s[i]) then SpaceEnd(s, i + 1) else i
  }

  /** Where a match of `[ \t]*\n[ \t]*\n\s*` at `i` ends; without a match, `i`. */
  function MatchEnd(s: string, i: nat): (e: nat)
    requires i <= |s|
    ensures i <= e <= |s|
  {
    var j := BlankEnd(s, i);
    if j == |s| || s[j] != '\n' then i
    else
      var k := BlankEnd(s, j + 1);
      if k == |s| || s[k] != '\n' then i else SpaceEnd(s, k + 1)
  }

  /** Where the leftmost match from `i` on starts; without one, the end of the text. */
  function NextMatch(s: string, i: nat): (k: nat)
    requires i <= |s|
    ensures i <= k <= |s| && (k < |s| ==> k < MatchEnd(s, k))
    decreases |s| - i
  {
    if i == |s| || i < MatchEnd(s, i) then i else NextMatch(s, i + 1)
  }

  /** The blocks of the text from `last` on: paragraphs, with an empty block for each delimiter. */
  function Paragraphs(s: string, last: nat): seq<string>
    requires last <= |s|
    decreases |s| - last
  {
    var k := NextMatch(s, last);
    if k < |s| then (if k == 0 then [] else [s[last..k]]) + [""] + Paragraphs(s, MatchEnd(s, k))
    else if last < |s| then [s[last..]]
    else []
  }

  method SplitIntoParagraphs(text: string) returns (paragraphs: seq<string>)
    ensures paragraphs == Paragraphs(text, 0)
  {
    paragraphs := [];
    var lastPosition := 0;
    var position := NextMatch(text, 0);
    ghost var rest := Paragraphs(text, 0);
    while position < |text|
      invariant lastPosition <= |text| && position == NextMatch(text, lastPosition)
      invariant rest == Paragraphs(text, lastPosition) && paragraphs + rest == Paragraphs(text, 0)
      decreases |text| - lastPosition
    {
      ghost var before, blocks := paragraphs, (if position == 0 then [] else [text[lastPosition..position]]) + [""];
      if position != 0 { paragraphs := paragraphs + [text[lastPosition..position]]; }
      paragraphs := paragraphs + [""];
      lastPosition := MatchEnd(text, position);
      position := NextMatch(text, lastPosition);
      rest := Paragraphs(text, lastPosition);
      Regroup(before, blocks, rest);
      assert paragraphs == before + blocks;
    }
    if lastPosition < |text| { paragraphs := paragraphs + [text[lastPosition..]]; }
  }

  // -------------------------------------------------------------------- the state

  function Spaces(n: nat): string { seq(n, _ => ' ') }

  /** The fields of the writer; `stream` is what it has written. */
  datatype Page = Page(
    stream: string, position: nat, lastWritePosition: nat, width: nat, startOfParagraph: bool, indent: string)

  function Blank(width: nat): Page { Page("", 0, 0, width, true, "") }

  function Indented(p: Page, n: nat): Page { p.(indent := Spaces(if n > p.width then p.width else n)) }

  function LineStarted(p: Page): Page {
    p.(stream := if p.position > 0 then p.stream + "\n" else p.stream,
       position := 0, lastWritePosition := 0, startOfParagraph := false)
  }

  function Skipped(p: Page, column: nat): Page {
    var q :=
      if column >= p.width || column < p.position then LineStarted(p)
      else p.(stream := p.stream + Spaces(column - p.position), position := column);
    q.(startOfParagraph := false)
  }

  function ParagraphStarted(p: Page): Page {
    if p.startOfParagraph then p
    else
      var q := LineStarted(p);
      q.(stream := q.stream + "\n", startOfParagraph := true)
  }

  /** The place where a word would end on the current line, always with a space before it. */
  function NewPosition(p: Page, word: string): nat {
    p.position + (if p.position == 0 then |p.indent| else 1) + |word|
  }

  /** The line break or the space before a word. */
  function Separated(p: Page, word: string): Page {
    if NewPosition(p, word) > p.width then LineStarted(p)
    else if p.position > 0 && p.position == p.lastWritePosition
    then p.(stream := p.stream + " ", position := p.position + 1)
    else p
  }

  function Margin(p: Page): Page {
    if p.position == 0 then p.(stream := p.stream + p.indent, position := |p.indent|) else p
  }

  function WordWritten(p: Page, word: string): Page {
    var q := Margin(Separated(p, word));
    q.(stream := q.stream + word, position := q.position + |word|, lastWritePosition := q.position + |word|)
  }

  function WordsWritten(p: Page, words: seq<string>): Page
    decreases |words|
  {
    if words == [] then p else WordsWritten(WordWritten(p, words[0]), words[1..])
  }

  /** One paragraph, or a paragraph break where the block is empty. */
  function BlockWritten(p: Page, block: string): Page {
    if block == "" then ParagraphStarted(p)
    else WordsWritten(p, Words(block)).(startOfParagraph := false)
  }

  function BlocksWritten(p: Page, blocks: seq<string>): Page
    decreases |blocks|
  {
    if blocks == [] then p else BlocksWritten(BlockWritten(p, blocks[0]), blocks[1..])
  }

  function TextWritten(p: Page, text: string): Page { BlocksWritten(p, Paragraphs(text, 0)) }

  class Writer {
    var stream: string
    var position: nat
    var lastWritePosition: nat
    var width: nat
    var startOfParagraph: bool
    var indent: string

    constructor (widthBytes: nat)
      ensures View() == Blank(widthBytes)
    {
      stream, position, lastWritePosition, width, startOfParagraph, indent := "", 0, 0, widthBytes, true, "";
    }

    function View(): Page
      reads this
    {
      Page(stream, position, lastWritePosition, width, startOfParagraph, indent)
    }

    method SetIndent(indentBytes: nat)
      modifies this`indent
      ensures View() == Indented(old(View()), indentBytes)
    {
      var bytes := indentBytes;
      if bytes > width { bytes := width; }
      indent := if bytes == 0 then "" else Spaces(bytes);
    }

    method StartLine()
      modifies this
      ensures View() == LineStarted(old(View()))
    {
      if position > 0 { stream := stream + "\n"; }
      position := 0;
      lastWritePosition := 0;
      startOfParagraph := false;
    }

    method SkipToColumnOrNewLine(column: nat)
      modifies this
      ensures View() == Skipped(old(View()), column)
    {
      if column >= width || column < position {
        StartLine();
      } else if column > position {
        stream := stream + Spaces(column - position);
        position := column;
      } else {
        assert stream + Spaces(0) == stream;
      }
      startOfParagraph := false;
    }

    method StartParagraph()
      modifies this
      ensures View() == ParagraphStarted(old(View()))
    {
      if !startOfParagraph {
        StartLine();
        stream := stream + "\n";
        startOfParagraph := true;
      }
    }

    /** The body of the loop of `write_paragraph`. */
    method WriteWord(word: string)
      modifies this
      ensures View() == WordWritten(old(View()), word)
    {
      var newpos := position + (if position == 0 then |indent| else 1) + |word|;
      if newpos > width {
        StartLine();
      } else if position > 0 && position == lastWritePosition {
        stream := stream + " ";
        position := position + 1;
      }
      assert View() == Separated(old(View()), word);
      if position == 0 && |indent| > 0 {
        stream := stream + indent;
        position := |indent|;
      } else if position == 0 {
        assert stream + indent == stream;
      }
      stream := stream + word;
      position := position + |word|;
      lastWritePosition := position;
    }

    method WriteParagraph(text: string)
      modifies this
      ensures View() == WordsWritten(old(View()), Words(text))
    {
      var words := SplitIntoWords(text);
      for i := 0 to |words|
        invariant WordsWritten(View(), words[i..]) == WordsWritten(old(View()), words)
      {
        WriteWord(words[i]);
        assert words[i..][1..] == words[i + 1..];
      }
    }

    method Write(text: string)
      modifies this
      ensures View() == TextWritten(old(View()), text)
    {
      var blocks := SplitIntoParagraphs(text);
      for i := 0 to |blocks|
        invariant BlocksWritten(View(), blocks[i..]) == BlocksWritten(old(View()), blocks)
      {
        if blocks[i] == "" {
          StartParagraph();
        } else {
          WriteParagraph(blocks[i]);
          startOfParagraph := false;
        }
        assert blocks[i..][1..] == blocks[i + 1..];
      }
    }
  }
}
