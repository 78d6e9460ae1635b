/** What the writer makes of a text, character by character: words, paragraphs and the indentation. */
module WriterText {
  import opened Sequences
  import opened Writer
  import opened WriterLayout

  /** Tab, line feed, vertical tab, form feed, carriage return and space. */
  predicate IsWhiteSpace(c: char) { c as int in {9, 10, 11, 12, 13, 32} }

  predicate IsBlank(c: char) { c as int == 9 || c as int == 32 }

  // ---------------------------------------------------------------------- the words

  /** The words of a text, read from left to right, when `word` has been read of the current one. */
  function Runs(s: string, word: string): seq<string>
    decreases |s|
  {
    if s == "" then Kept(word)
    else if IsWhiteSpace(s[0]) then Kept(word) + Runs(s[1..], "")
    else Runs(s[1..], word + [s[0]])
  }

  function Kept(word: string): seq<string> { if word == "" then [] else [word] }

  lemma WhiteIs(c: char)
    ensures IsWhiteSpace(c) <==> IsSpace(c)
  {
  }

  lemma {:induction false} RunsInWord(s: string, word: string)
    ensures var n := WordLength(s); Runs(s, word) == Kept(word + s[..n]) + Runs(s[n..], "")
    decreases |s|
  {
    var n := WordLength(s);
    if s == "" || IsSpace(s[0]) {
      assert word + s[..n] == word && s[n..] == s;
      if s != "" {
        WhiteIs(s[0]);
        assert Runs(s, "") == [] + Runs(s[1..], "") == Runs(s[1..], "");
      }
    } else {
      WhiteIs(s[0]);
      RunsInWord(s[1..], word + [s[0]]);
      assert word + [s[0]] + s[1..][..n - 1] == word + s[..n] && s[1..][n - 1..] == s[n..];
    }
  }

  /** The words are the runs of other characters than white space. */
  lemma {:induction false} WordsAreRuns(s: string)
    ensures Words(s) == Runs(s, "")
    decreases |s|
  {
    if s != "" {
      WhiteIs(s[0]);
      if IsSpace(s[0]) {
        WordsAreRuns(s[1..]);
      } else {
        var n := WordLength(s);
        RunsInWord(s, "");
        assert "" + s[..n] == s[..n];
        WordsAreRuns(s[n..]);
      }
    }
  }

  // ----------------------------------------------------------------- the paragraphs

  /** Two line breaks with only spaces and tabs between them. */
  predicate BlankLineAt(s: string, i: nat, j: nat) {
    i < j < |s| && s[i] == '\n' && s[j] == '\n' && forall k :: i < k < j ==> IsBlank(s[k])
  }

  ghost predicate HasBlankLine(s: string) { exists i: nat, j: nat :: BlankLineAt(s, i, j) }

  lemma {:induction false} BlanksTo(s: string, i: nat)
    requires i <= |s|
    ensures forall k :: i <= k < BlankEnd(s, i) ==> IsBlank(s[k])
    ensures BlankEnd(s, i) < |s| ==> !IsBlank(s[BlankEnd(s, i)])
    decreases |s| - i
  {
    if i < |s| && (s[i] == ' ' || s[i] == '\t') { BlanksTo(s, i + 1); }
  }

  lemma {:induction false} BlankEndIs(s: string, i: nat, e: nat)
    requires i <= e < |s| && !IsBlank(s[e]) && forall k :: i <= k < e ==> IsBlank(s[k])
    ensures BlankEnd(s, i) == e
    decreases e - i
  {
    if i < e { BlankEndIs(s, i + 1, e); }
  }

  lemma MatchHasBlankLine(s: string, i: nat)
    requires i <= |s| && i < MatchEnd(s, i)
    ensures var j := BlankEnd(s, i); j < |s| && BlankLineAt(s, j, BlankEnd(s, j + 1))
  {
    BlanksTo(s, BlankEnd(s, i) + 1);
  }

  lemma BlankLineMatches(s: string, i: nat, j: nat)
    requires BlankLineAt(s, i, j)
    ensures i < MatchEnd(s, i)
  {
    BlankEndIs(s, i, i);
    BlankEndIs(s, i + 1, j);
  }

  /** A text holds a delimiter of paragraphs if and only if it holds a blank line. */
  lemma DelimitersAre(s: string)
    ensures HasBlankLine(s) <==> exists i :: 0 <= i <= |s| && i < MatchEnd(s, i)
    ensures HasBlankLine(s) <==> !IsWhole(s)
  {
    if i: nat, j: nat :| BlankLineAt(s, i, j) { BlankLineMatches(s, i, j); }
    if i :| 0 <= i <= |s| && i < MatchEnd(s, i) { MatchHasBlankLine(s, i); }
  }

  // ------------------------------------------------------------- a blank line is a break

  /** No delimiter starts from `i` on and before `n`. */
  predicate NoMatchIn(s: string, i: nat, n: nat)
    requires n <= |s|
  {
    forall k :: i <= k < n ==> MatchEnd(s, k) == k
  }

  lemma {:induction false} NextIs(s: string, i: nat, n: nat)
    requires i <= n <= |s| && NoMatchIn(s, i, n) && (n < |s| ==> n < MatchEnd(s, n))
    ensures NextMatch(s, i) == n
    decreases n - i
  {
    if i < n { NextIs(s, i + 1, n); }
  }

  /** What writing the text from a position on leads to. */
  function RestWritten(p: Page, s: string, from: nat): Page
    requires from <= |s|
  {
    BlocksWritten(p, Paragraphs(s, from))
  }

  /** A paragraph: the words of a part of the text. */
  function PartWritten(p: Page, part: string): Page {
    WordsWritten(p, Runs(part, "")).(startOfParagraph := false)
  }

  lemma OneBlock(p: Page, block: string, rest: seq<string>)
    ensures BlocksWritten(p, [block] + rest) == BlocksWritten(BlockWritten(p, block), rest)
  {
    assert ([block] + rest)[1..] == rest;
  }

  lemma PartIsBlock(p: Page, part: string)
    requires part != ""
    ensures BlockWritten(p, part) == PartWritten(p, part)
  {
    WordsAreRuns(part);
  }

  /** The text from `from` on without a blank line is one paragraph. */
  lemma LastParagraph(p: Page, s: string, from: nat)
    requires from < |s| && !HasBlankLine(s[from..])
    ensures RestWritten(p, s, from) == PartWritten(p, s[from..])
  {
    NoneFrom(s, from);
    NextIs(s, from, |s|);
    PartIsBlock(p, s[from..]);
    OneBlock(p, s[from..], []);
    assert [s[from..]] + [] == [s[from..]];
  }

  lemma NoneFrom(s: string, from: nat)
    requires from <= |s| && !HasBlankLine(s[from..])
    ensures NoMatchIn(s, from, |s|)
  {
    forall k | from <= k < |s| ensures MatchEnd(s, k) == k {
      if k < MatchEnd(s, k) {
        var x := BlankEnd(s, k);
        MatchHasBlankLine(s, k);
        InRest(s, from, x, BlankEnd(s, x + 1));
      }
    }
  }

  lemma InRest(s: string, from: nat, x: nat, y: nat)
    requires from <= x && BlankLineAt(s, x, y)
    ensures HasBlankLine(s[from..])
  {
    var u := s[from..];
    assert forall k :: x - from <= k <= y - from ==> u[k] == s[from + k];
    assert BlankLineAt(u, x - from, y - from);
  }

  /** From `n` to `e`: spaces and tabs around the line breaks at `x` and `y`, and all the white space after them. */
  predicate IsGap(s: string, n: nat, x: nat, y: nat, e: nat) {
    && n <= x < y < e <= |s| && s[x] == '\n' && s[y] == '\n'
    && (forall k :: n <= k < x ==> IsBlank(s[k])) && (forall k :: x < k < y ==> IsBlank(s[k]))
    && (forall k :: y < k < e ==> IsWhiteSpace(s[k])) && (e < |s| ==> !IsWhiteSpace(s[e]))
  }

  lemma {:induction false} SpaceEndIs(s: string, i: nat, e: nat)
    requires i <= e <= |s| && (e < |s| ==> !IsSpace(s[e])) && forall k :: i <= k < e ==> IsSpace(s[k])
    ensures SpaceEnd(s, i) == e
    decreases e - i
  {
    if i < e { SpaceEndIs(s, i + 1, e); }
  }

  lemma GapMatches(s: string, n: nat, x: nat, y: nat, e: nat)
    requires IsGap(s, n, x, y, e)
    ensures MatchEnd(s, n) == e
  {
    BlankEndIs(s, n, x);
    BlankEndIs(s, x + 1, y);
    SpaceEndIs(s, y + 1, e);
  }

  /** The gap at `n` does not start earlier. */
  predicate EndsBefore(s: string, n: nat)
    requires 0 < n <= |s|
  {
    !IsBlank(s[n - 1]) && s[n - 1] != '\n'
  }

  /** Then no delimiter starts before it without a blank line. */
  lemma NoneBefore(s: string, from: nat, n: nat)
    requires from < n <= |s| && EndsBefore(s, n) && !HasBlankLine(s[from..n])
    ensures NoMatchIn(s, from, n)
  {
    forall k | from <= k < n ensures MatchEnd(s, k) == k {
      if k < MatchEnd(s, k) {
        var x := BlankEnd(s, k);
        var y := BlankEnd(s, x + 1);
        MatchHasBlankLine(s, k);
        BlanksTo(s, k);
        BlanksTo(s, x + 1);
        assert y < n - 1;
        InPart(s, from, n, x, y);
      }
    }
  }

  lemma InPart(s: string, from: nat, n: nat, x: nat, y: nat)
    requires from <= x && y < n <= |s| && BlankLineAt(s, x, y)
    ensures HasBlankLine(s[from..n])
  {
    var u := s[from..n];
    assert forall k :: x - from <= k <= y - from ==> u[k] == s[from + k];
    assert BlankLineAt(u, x - from, y - from);
  }

  lemma NextBlock(s: string, from: nat, k: nat, e: nat)
    requires from <= k < |s| && k == NextMatch(s, from) && e == MatchEnd(s, k)
    ensures Paragraphs(s, from) == (if k == 0 then [] else [s[from..k]]) + ([""] + Paragraphs(s, e))
  {
    Regroup(if k == 0 then [] else [s[from..k]], [""], Paragraphs(s, e));
  }

  /**
   * A blank line is a break between paragraphs: what stands before it is written, the
   * line is ended, one empty line is left, and the text after it is written.
   */
  lemma BlankLineBreaks(p: Page, s: string, from: nat, n: nat, x: nat, y: nat, e: nat)
    requires from < n && IsGap(s, n, x, y, e) && EndsBefore(s, n) && !HasBlankLine(s[from..n])
    ensures RestWritten(p, s, from) == RestWritten(ParagraphStarted(PartWritten(p, s[from..n])), s, e)
  {
    NoneBefore(s, from, n);
    GapMatches(s, n, x, y, e);
    NextIs(s, from, n);
    NextBlock(s, from, n, e);
    OneBlock(p, s[from..n], [""] + Paragraphs(s, e));
    PartIsBlock(p, s[from..n]);
    OneBlock(PartWritten(p, s[from..n]), "", Paragraphs(s, e));
  }

  /** A blank line before all text is a break too. */
  lemma LeadingBlankLine(p: Page, s: string, x: nat, y: nat, e: nat)
    requires IsGap(s, 0, x, y, e)
    ensures RestWritten(p, s, 0) == RestWritten(ParagraphStarted(p), s, e)
  {
    GapMatches(s, 0, x, y, e);
    NextIs(s, 0, 0);
    NextBlock(s, 0, 0, e);
    assert [] + ([""] + Paragraphs(s, e)) == [""] + Paragraphs(s, e);
    OneBlock(p, "", Paragraphs(s, e));
  }

  /** Writing a text goes from its start to its end; a break ends the line and leaves one empty line. */
  lemma WritesText(p: Page, text: string)
    ensures TextWritten(p, text) == RestWritten(p, text, 0) && RestWritten(p, text, |text|) == p
    ensures !p.startOfParagraph ==>
            ParagraphStarted(p).stream == p.stream + (if p.position > 0 then "\n" else "") + "\n"
    ensures p.startOfParagraph ==> ParagraphStarted(p) == p
  {
  }

  /** How a page ends its line and leaves one empty line. */
  function Broken(p: Page): string { p.stream + (if p.position > 0 then "\n" else "") + "\n" }

  /** A break leaves an empty line after a line start, a skip and a paragraph, not on a new page or after a break. */
  lemma WhereBreaks(p: Page, width: nat, column: nat, part: string)
    ensures ParagraphStarted(LineStarted(p)).stream == Broken(LineStarted(p))
    ensures ParagraphStarted(Skipped(p, column)).stream == Broken(Skipped(p, column))
    ensures ParagraphStarted(PartWritten(p, part)).stream == Broken(PartWritten(p, part))
    ensures ParagraphStarted(Blank(width)).stream == ""
    ensures ParagraphStarted(ParagraphStarted(p)) == ParagraphStarted(p)
  {
  }

  // ---------------------------------------------------------------------- the margin

  /** At the start of a line, a word follows as many spaces as `set_indent` asked for, at most the width. */
  lemma IndentWritten(p: Page, n: nat, word: string)
    requires p.position == 0
    ensures var spaces := seq(if n > p.width then p.width else n, _ => ' ');
            WordWritten(Indented(p, n), word).stream == p.stream + spaces + word
  {
  }
}
