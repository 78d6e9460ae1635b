/**
 * What the wrapper's output looks like after any sequence of calls: the words it holds,
 * the lengths of its lines, and how many lines a paragraph takes compared with every
 * other way of breaking it.
 */
module WriterLayout {
  import opened Writer
  import opened Sequences

  datatype Op = SetIndent(n: nat) | StartLine | Skip(column: nat) | StartParagraph | Write(text: string)

  function Do(p: Page, op: Op): Page {
    match op
    case SetIndent(n) => Indented(p, n)
    case StartLine => LineStarted(p)
    case Skip(column) => Skipped(p, column)
    case StartParagraph => ParagraphStarted(p)
    case Write(text) => TextWritten(p, text)
  }

  function After(width: nat, ops: seq<Op>): Page {
    if ops == [] then Blank(width) else Do(After(width, ops[..|ops| - 1]), ops[|ops| - 1])
  }

  function BlockWords(blocks: seq<string>): seq<string> {
    if blocks == [] then [] else Words(blocks[0]) + BlockWords(blocks[1..])
  }

  function OpWords(op: Op): seq<string> { if op.Write? then Words(op.text) else [] }

  /** All the words that have been handed to the writer. */
  function Given(ops: seq<Op>): seq<string> {
    if ops == [] then [] else Given(ops[..|ops| - 1]) + OpWords(ops[|ops| - 1])
  }

  // ---------------------------------------------------------------- lines and words

  /** The lines of a text; the last one is the one being written. */
  function Lines(s: string): (lines: seq<string>)
    ensures lines != []
  {
    if s == "" then [""]
    else
      var lines, c := Lines(s[..|s| - 1]), s[|s| - 1];
      if c == '\n' then lines + [""] else lines[..|lines| - 1] + [lines[|lines| - 1] + [c]]
  }

  function LastLine(s: string): string { Lines(s)[|Lines(s)| - 1] }

  function EarlierLines(s: string): seq<string> { Lines(s)[..|Lines(s)| - 1] }

  lemma {:induction false} LinesAppend(s: string, t: string)
    requires '\n' !in t
    ensures EarlierLines(s + t) == EarlierLines(s) && LastLine(s + t) == LastLine(s) + t
  {
    if t == "" {
      assert s + t == s && LastLine(s) + t == LastLine(s);
    } else {
      var init := t[..|t| - 1];
      LinesAppend(s, init);
      assert (s + t)[..|s + t| - 1] == s + init && (s + t)[|s + t| - 1] == t[|t| - 1];
      assert t[|t| - 1] in t;
      assert LastLine(s) + t == LastLine(s) + init + [t[|t| - 1]];
    }
  }

  lemma LinesBreak(s: string)
    ensures EarlierLines(s + "\n") == Lines(s) && LastLine(s + "\n") == ""
  {
    assert (s + "\n")[..|s|] == s;
  }

  lemma EmptyLastLine(s: string)
    ensures LastLine(s) == "" ==> s == "" || s[|s| - 1] == '\n'
  {
  }

  predicate IsWhite(s: string) { forall i :: 0 <= i < |s| ==> IsSpace(s[i]) }

  predicate Ended(s: string) { s == "" || IsSpace(s[|s| - 1]) }

  lemma {:induction false} WordLengthAppend(s: string, t: string)
    requires WordLength(s) < |s| || t == "" || IsSpace(t[0])
    ensures WordLength(s + t) == WordLength(s)
  {
    if s != "" && !IsSpace(s[0]) {
      assert (s + t)[1..] == s[1..] + t;
      WordLengthAppend(s[1..], t);
    }
  }

  /** No word runs across a place with white space on one side. */
  lemma {:induction false} WordsAppend(s: string, t: string)
    requires Ended(s) || t == "" || IsSpace(t[0])
    ensures Words(s + t) == Words(s) + Words(t)
    decreases |s|
  {
    if s == "" {
      assert s + t == t;
    } else if IsSpace(s[0]) {
      assert (s + t)[1..] == s[1..] + t;
      WordsAppend(s[1..], t);
    } else {
      var n := WordLength(s);
      LengthIsWord(s);
      WordLengthAppend(s, t);
      assert (s + t)[..n] == s[..n] && (s + t)[n..] == s[n..] + t;
      WordsAppend(s[n..], t);
    }
  }

  lemma {:induction false} LengthIsWord(s: string)
    ensures forall i :: 0 <= i < WordLength(s) ==> !IsSpace(s[i])
  {
    if s != "" && !IsSpace(s[0]) { LengthIsWord(s[1..]); }
  }

  lemma {:induction false} WordsAreWords(s: string)
    ensures forall i :: 0 <= i < |Words(s)| ==> IsWord(Words(s)[i])
    decreases |s|
  {
    if s != "" {
      if IsSpace(s[0]) {
        WordsAreWords(s[1..]);
      } else {
        LengthIsWord(s);
        WordsAreWords(s[WordLength(s)..]);
      }
    }
  }

  lemma {:induction false} WhiteHasNoWords(s: string)
    requires IsWhite(s)
    ensures Words(s) == []
  {
    if s != "" { WhiteHasNoWords(s[1..]); }
  }

  lemma {:induction false} WordLengthOfWord(w: string)
    requires forall i :: 0 <= i < |w| ==> !IsSpace(w[i])
    ensures WordLength(w) == |w|
  {
    if w != "" { WordLengthOfWord(w[1..]); }
  }

  lemma WordsOfWord(w: string)
    requires IsWord(w)
    ensures Words(w) == [w]
  {
    WordLengthOfWord(w);
    assert w[..|w|] == w;
  }

  lemma AppendWhite(s: string, gap: string)
    requires IsWhite(gap)
    ensures Words(s + gap) == Words(s)
  {
    WordsAppend(s, gap);
    WhiteHasNoWords(gap);
  }

  lemma AppendWord(s: string, gap: string, w: string)
    requires IsWhite(gap) && IsWord(w) && Ended(s + gap)
    ensures Words(s + gap + w) == Words(s) + [w]
  {
    AppendWhite(s, gap);
    WordsAppend(s + gap, w);
    WordsOfWord(w);
  }

  // ------------------------------------------------------------------ the paragraphs

  lemma {:induction false} SpacesAreWhite(s: string, i: nat)
    requires i <= |s|
    ensures forall k :: i <= k < SpaceEnd(s, i) ==> IsSpace(s[k])
    ensures SpaceEnd(s, i) < |s| ==> !IsSpace(s[SpaceEnd(s, i)])
    decreases |s| - i
  {
    if i < |s| && IsSpace(s[i]) { SpacesAreWhite(s, i + 1); }
  }

  lemma {:induction false} BlanksAreWhite(s: string, i: nat)
    requires i <= |s|
    ensures forall k :: i <= k < BlankEnd(s, i) ==> IsSpace(s[k])
    decreases |s| - i
  {
    if i < |s| && (s[i] == ' ' || s[i] == '\t') { BlanksAreWhite(s, i + 1); }
  }

  /** A delimiter is white space, and takes all that follows. */
  lemma MatchIsWhite(s: string, i: nat)
    requires i <= |s|
    ensures IsWhite(s[i..MatchEnd(s, i)])
    ensures i < MatchEnd(s, i) < |s| ==> !IsSpace(s[MatchEnd(s, i)])
  {
    var j := BlankEnd(s, i);
    BlanksAreWhite(s, i);
    if j < |s| && s[j] == '\n' {
      var k := BlankEnd(s, j + 1);
      BlanksAreWhite(s, j + 1);
      if k < |s| && s[k] == '\n' { SpacesAreWhite(s, k + 1); }
    }
  }

  /** White space between two texts separates their words. */
  lemma WordsAround(a: string, gap: string, b: string)
    requires gap != "" && IsWhite(gap)
    ensures Words(a + gap + b) == Words(a) + Words(b)
  {
    AppendWhite(a, gap);
    WordsAppend(a + gap, b);
  }

  lemma BlockWordsCons(first: seq<string>, rest: seq<string>)
    requires |first| <= 1
    ensures BlockWords(first + [""] + rest) ==
            (if first == [] then [] else Words(first[0])) + BlockWords(rest)
  {
    var blocks := [""] + rest;
    assert blocks[1..] == rest;
    if first == [] {
      assert first + [""] + rest == blocks;
    } else {
      assert (first + [""] + rest)[1..] == blocks;
    }
  }

  lemma WordsAroundMatch(s: string, last: nat, k: nat)
    requires last <= k < |s| && k < MatchEnd(s, k)
    ensures Words(s[last..]) == Words(s[last..k]) + Words(s[MatchEnd(s, k)..])
  {
    var e := MatchEnd(s, k);
    MatchIsWhite(s, k);
    WordsAround(s[last..k], s[k..e], s[e..]);
    ThreeSlices(s, last, k, e);
  }

  lemma ThreeSlices(s: string, i: nat, j: nat, k: nat)
    requires i <= j <= k <= |s|
    ensures s[i..] == s[i..j] + s[j..k] + s[k..]
  {
  }

  /** Splitting into paragraphs loses no word and splits none. */
  lemma {:induction false} ParagraphWords(s: string, last: nat)
    requires last <= |s|
    ensures BlockWords(Paragraphs(s, last)) == Words(s[last..])
    decreases |s| - last
  {
    var k := NextMatch(s, last);
    if k < |s| {
      ParagraphWords(s, MatchEnd(s, k));
      WordsAroundMatch(s, last, k);
      BlockWordsCons(if k == 0 then [] else [s[last..k]], Paragraphs(s, MatchEnd(s, k)));
    } else if last < |s| {
      assert BlockWords([s[last..]]) == Words(s[last..]) + BlockWords([]);
    }
  }

  lemma {:induction false} BlankEndSlice(s: string, last: nat, k: nat, i: nat)
    requires last <= k <= |s| && i <= k - last && BlankEnd(s[last..k], i) < k - last
    ensures BlankEnd(s, last + i) == last + BlankEnd(s[last..k], i)
    decreases k - last - i
  {
    var piece := s[last..k];
    assert piece[i] == s[last + i];
    if piece[i] == ' ' || piece[i] == '\t' { BlankEndSlice(s, last, k, i + 1); }
  }

  /** A delimiter inside a piece of the text is one of the text. */
  lemma MatchInSlice(s: string, last: nat, k: nat, i: nat)
    requires last <= k <= |s| && i <= k - last && i < MatchEnd(s[last..k], i)
    ensures last + i < k && last + i < MatchEnd(s, last + i)
  {
    var piece := s[last..k];
    var j := BlankEnd(piece, i);
    BlankEndSlice(s, last, k, i);
    BlankEndSlice(s, last, k, j + 1);
    assert piece[j] == s[last + j] && piece[BlankEnd(piece, j + 1)] == s[last + BlankEnd(piece, j + 1)];
  }

  lemma {:induction false} NoMatchBefore(s: string, i: nat, j: nat)
    requires i <= |s| && i <= j < NextMatch(s, i)
    ensures MatchEnd(s, j) == j
    decreases j - i
  {
    if i < j { NoMatchBefore(s, i + 1, j); }
  }

  predicate IsWhole(block: string) { forall i :: 0 <= i <= |block| ==> MatchEnd(block, i) == i }

  lemma PieceIsWhole(s: string, last: nat)
    requires last <= |s|
    ensures IsWhole(s[last..NextMatch(s, last)])
  {
    var k := NextMatch(s, last);
    forall i | 0 <= i <= k - last ensures MatchEnd(s[last..k], i) == i {
      if i < MatchEnd(s[last..k], i) {
        MatchInSlice(s, last, k, i);
        NoMatchBefore(s, last, last + i);
      }
    }
  }

  /** No block holds a delimiter: every one of the text is found. */
  lemma {:induction false} BlocksAreWhole(s: string, last: nat)
    requires last <= |s|
    ensures forall b :: b in Paragraphs(s, last) ==> IsWhole(b)
    decreases |s| - last
  {
    var k := NextMatch(s, last);
    PieceIsWhole(s, last);
    if k < |s| {
      BlocksAreWhole(s, MatchEnd(s, k));
      assert IsWhole("");
    } else {
      assert s[last..k] == s[last..];
    }
  }

  // ------------------------------------------------------------------- the invariant

  /** Indentation within the width and one word. */
  predicate IsLoneWord(line: string, width: nat) {
    exists k: nat :: k <= |line| && k <= width && line[..k] == Spaces(k) && IsWord(line[k..])
  }

  predicate FitsLine(line: string, width: nat) { |line| <= width || IsLoneWord(line, width) }

  predicate Sound(p: Page) {
    && |p.indent| <= p.width && p.indent == Spaces(|p.indent|)
    && p.position == |LastLine(p.stream)|
    && (p.position != p.lastWritePosition ==> Ended(p.stream))
    && forall i :: 0 <= i < |Lines(p.stream)| ==> FitsLine(Lines(p.stream)[i], p.width)
  }

  lemma BreakFits(s: string, width: nat)
    requires forall i :: 0 <= i < |Lines(s)| ==> FitsLine(Lines(s)[i], width)
    ensures forall i :: 0 <= i < |Lines(s + "\n")| ==> FitsLine(Lines(s + "\n")[i], width)
  {
    LinesBreak(s);
    AddLine(s, s + "\n", width);
  }

  lemma LineStartedSound(p: Page)
    requires Sound(p)
    ensures Sound(LineStarted(p)) && Words(LineStarted(p).stream) == Words(p.stream)
  {
    LinesBreak(p.stream);
    BreakFits(p.stream, p.width);
    AppendWhite(p.stream, "\n");
  }

  lemma BreakSound(p: Page)
    requires Sound(p) && p.position == 0 && p.lastWritePosition == 0
    ensures Sound(p.(stream := p.stream + "\n")) && Words(p.stream + "\n") == Words(p.stream)
  {
    LinesBreak(p.stream);
    BreakFits(p.stream, p.width);
    AppendWhite(p.stream, "\n");
  }

  lemma SkippedSound(p: Page, column: nat)
    requires Sound(p)
    ensures Sound(Skipped(p, column)) && Words(Skipped(p, column).stream) == Words(p.stream)
  {
    if column >= p.width || column < p.position {
      LineStartedSound(p);
    } else {
      var gap := Spaces(column - p.position);
      LinesAppend(p.stream, gap);
      AppendWhite(p.stream, gap);
      if gap == "" { assert p.stream + gap == p.stream; }
      ReplaceLast(p.stream, p.stream + gap, p.width);
    }
  }

  /** Only the last line has changed. */
  lemma ReplaceLast(s: string, t: string, width: nat)
    requires EarlierLines(t) == EarlierLines(s) && FitsLine(LastLine(t), width)
    requires forall i :: 0 <= i < |Lines(s)| ==> FitsLine(Lines(s)[i], width)
    ensures forall i :: 0 <= i < |Lines(t)| ==> FitsLine(Lines(t)[i], width)
  {
    forall i | 0 <= i < |Lines(t)| - 1 ensures FitsLine(Lines(t)[i], width) {
      assert Lines(t)[i] == EarlierLines(t)[i] == EarlierLines(s)[i] == Lines(s)[i];
    }
  }

  /** What goes between the stream and the next word. */
  function Gap(p: Page, word: string): string {
    if NewPosition(p, word) > p.width || p.position == 0 then (if p.position > 0 then "\n" else "") + p.indent
    else if p.position == p.lastWritePosition then " "
    else ""
  }

  lemma EndedAppend(s: string, gap: string)
    requires IsWhite(gap) && (gap == "" ==> Ended(s))
    ensures Ended(s + gap)
  {
    if gap != "" { assert (s + gap)[|s + gap| - 1] == gap[|gap| - 1]; }
  }

  lemma WhiteMargin(indent: string)
    requires indent == Spaces(|indent|)
    ensures IsWhite(indent) && IsWhite("\n" + indent)
  {
  }

  lemma GapEnds(p: Page, word: string)
    requires Sound(p)
    ensures IsWhite(Gap(p, word)) && Ended(p.stream + Gap(p, word))
  {
    EmptyLastLine(p.stream);
    WhiteMargin(p.indent);
    assert "" + p.indent == p.indent;
    EndedAppend(p.stream, Gap(p, word));
  }

  lemma EmptyParts(s: string)
    ensures s + "" == s && "" + s == s
  {
  }

  lemma WordStream(p: Page, word: string)
    ensures WordWritten(p, word).stream == p.stream + Gap(p, word) + word
  {
    EmptyParts(p.stream);
    EmptyParts(p.indent);
    Regroup(p.stream, "\n", p.indent);
  }

  lemma WordWords(p: Page, word: string)
    requires Sound(p) && IsWord(word)
    ensures Words(WordWritten(p, word).stream) == Words(p.stream) + [word]
  {
    WordStream(p, word);
    GapEnds(p, word);
    AppendWord(p.stream, Gap(p, word), word);
  }

  predicate Wraps(p: Page, word: string) { p.position > 0 && NewPosition(p, word) > p.width }

  lemma LinesAfterBreak(s: string, u: string, x: string)
    requires EarlierLines(u) == Lines(s) && LastLine(u) == "" && '\n' !in x
    ensures EarlierLines(u + x) == Lines(s) && LastLine(u + x) == x
  {
    LinesAppend(u, x);
    assert "" + x == x;
  }

  lemma WrapLines(s: string, x: string)
    requires '\n' !in x
    ensures EarlierLines(s + ("\n" + x)) == Lines(s) && LastLine(s + ("\n" + x)) == x
  {
    var u := s + "\n";
    LinesBreak(s);
    LinesAfterBreak(s, u, x);
    Regroup(s, "\n", x);
  }

  lemma NoBreakInWord(word: string)
    requires IsWord(word)
    ensures '\n' !in word
  {
    forall c | c in word ensures !IsSpace(c) {
      var i :| 0 <= i < |word| && word[i] == c;
    }
  }

  /** The line that a word ends up on. */
  lemma WordLine(p: Page, word: string)
    requires Sound(p) && IsWord(word)
    ensures var t := WordWritten(p, word).stream;
            if Wraps(p, word) then EarlierLines(t) == Lines(p.stream) && LastLine(t) == p.indent + word
            else EarlierLines(t) == EarlierLines(p.stream) && LastLine(t) == LastLine(p.stream) + (Gap(p, word) + word)
  {
    WordStream(p, word);
    GapEnds(p, word);
    NoBreakInWord(word);
    var gap := Gap(p, word);
    if Wraps(p, word) {
      Regroup("\n", p.indent, word);
      WrapLines(p.stream, p.indent + word);
    } else {
      EmptyParts(p.indent);
      LinesAppend(p.stream, gap + word);
    }
    Regroup(p.stream, gap, word);
  }

  lemma WordPosition(p: Page, word: string)
    requires Sound(p) && IsWord(word)
    ensures var q := WordWritten(p, word);
            && q.position == q.lastWritePosition && q.width == p.width && q.indent == p.indent
            && q.position == if Wraps(p, word) then |p.indent| + |word| else p.position + |Gap(p, word)| + |word|
  {
  }

  lemma WordSound(p: Page, word: string)
    requires Sound(p) && IsWord(word)
    ensures Sound(WordWritten(p, word))
  {
    var t := WordWritten(p, word).stream;
    WordLine(p, word);
    WordPosition(p, word);
    LoneWord(p.indent, word, p.width);
    if Wraps(p, word) {
      AddLine(p.stream, t, p.width);
    } else {
      if p.position == 0 {
        EmptyParts(p.indent);
        EmptyParts(p.indent + word);
      }
      ReplaceLast(p.stream, t, p.width);
    }
  }

  lemma AddLine(s: string, t: string, width: nat)
    requires EarlierLines(t) == Lines(s) && FitsLine(LastLine(t), width)
    requires forall i :: 0 <= i < |Lines(s)| ==> FitsLine(Lines(s)[i], width)
    ensures forall i :: 0 <= i < |Lines(t)| ==> FitsLine(Lines(t)[i], width)
  {
    forall i | 0 <= i < |Lines(t)| - 1 ensures FitsLine(Lines(t)[i], width) {
      assert Lines(t)[i] == EarlierLines(t)[i];
    }
  }

  lemma LoneWord(indent: string, word: string, width: nat)
    requires IsWord(word) && |indent| <= width && indent == Spaces(|indent|)
    ensures FitsLine(indent + word, width)
  {
    var line := indent + word;
    assert line[..|indent|] == Spaces(|indent|) && line[|indent|..] == word;
  }

  lemma {:induction false} WordsSound(p: Page, words: seq<string>)
    requires Sound(p) && forall i :: 0 <= i < |words| ==> IsWord(words[i])
    ensures Sound(WordsWritten(p, words)) && Words(WordsWritten(p, words).stream) == Words(p.stream) + words
    decreases |words|
  {
    if words != [] {
      WordSound(p, words[0]);
      WordWords(p, words[0]);
      WordsSound(WordWritten(p, words[0]), words[1..]);
    }
  }

  lemma BlockSound(p: Page, block: string)
    requires Sound(p)
    ensures Sound(BlockWritten(p, block)) && Words(BlockWritten(p, block).stream) == Words(p.stream) + Words(block)
  {
    if block == "" {
      LineStartedSound(p);
      BreakSound(LineStarted(p));
    } else {
      WordsAreWords(block);
      WordsSound(p, Words(block));
    }
  }

  lemma {:induction false} BlocksSound(p: Page, blocks: seq<string>)
    requires Sound(p)
    ensures Sound(BlocksWritten(p, blocks))
    ensures Words(BlocksWritten(p, blocks).stream) == Words(p.stream) + BlockWords(blocks)
    decreases |blocks|
  {
    if blocks != [] {
      BlockSound(p, blocks[0]);
      BlocksSound(BlockWritten(p, blocks[0]), blocks[1..]);
    }
  }

  lemma DoSound(p: Page, op: Op)
    requires Sound(p)
    ensures Sound(Do(p, op)) && Words(Do(p, op).stream) == Words(p.stream) + OpWords(op)
  {
    if op.StartLine? || op.StartParagraph? {
      LineStartedSound(p);
      BreakSound(LineStarted(p));
    } else if op.Skip? {
      SkippedSound(p, op.column);
    } else if op.Write? {
      BlocksSound(p, Paragraphs(op.text, 0));
      ParagraphWords(op.text, 0);
      assert op.text[0..] == op.text;
    }
  }

  lemma {:induction false} AfterSound(width: nat, ops: seq<Op>)
    ensures Sound(After(width, ops)) && After(width, ops).width == width
    ensures Words(After(width, ops).stream) == Given(ops)
  {
    if ops != [] {
      AfterSound(width, ops[..|ops| - 1]);
      DoSound(After(width, ops[..|ops| - 1]), ops[|ops| - 1]);
      DoKeepsWidth(After(width, ops[..|ops| - 1]), ops[|ops| - 1]);
    }
  }

  lemma DoKeepsWidth(p: Page, op: Op)
    ensures Do(p, op).width == p.width
  {
    if op.Write? { BlocksKeepWidth(p, Paragraphs(op.text, 0)); }
  }

  lemma {:induction false} BlocksKeepWidth(p: Page, blocks: seq<string>)
    ensures BlocksWritten(p, blocks).width == p.width
    decreases |blocks|
  {
    if blocks != [] {
      WordsKeepFormat(p, Words(blocks[0]));
      BlocksKeepWidth(BlockWritten(p, blocks[0]), blocks[1..]);
    }
  }

  lemma {:induction false} WordsKeepFormat(p: Page, words: seq<string>)
    ensures WordsWritten(p, words).width == p.width && WordsWritten(p, words).indent == p.indent
    decreases |words|
  {
    if words != [] { WordsKeepFormat(WordWritten(p, words[0]), words[1..]); }
  }

  /** After any calls, every line is within the width or is indentation and one word. */
  lemma EveryLineFits(width: nat, ops: seq<Op>, i: nat)
    requires i < |Lines(After(width, ops).stream)|
    ensures FitsLine(Lines(After(width, ops).stream)[i], width)
  {
    AfterSound(width, ops);
  }

  /** After any calls, the output holds the given words in order, none split and none run together. */
  lemma WordsSurvive(width: nat, ops: seq<Op>)
    ensures Words(After(width, ops).stream) == Given(ops)
  {
    AfterSound(width, ops);
  }

  /** `position` is the length of the line being written. */
  lemma PositionIsColumn(width: nat, ops: seq<Op>)
    ensures After(width, ops).position == |LastLine(After(width, ops).stream)|
  {
    AfterSound(width, ops);
  }

  /** A column skip reaches the column on the same line, or starts a new one. */
  lemma SkipReachesColumn(p: Page, column: nat)
    requires Sound(p)
    ensures var q := Skipped(p, column);
            if p.position <= column < p.width then
              EarlierLines(q.stream) == EarlierLines(p.stream) && |LastLine(q.stream)| == column &&
              LastLine(q.stream) == LastLine(p.stream) + Spaces(column - p.position)
            else
              LastLine(q.stream) == "" && EarlierLines(q.stream) ==
                if p.position > 0 then Lines(p.stream) else EarlierLines(p.stream)
  {
    if p.position <= column < p.width {
      LinesAppend(p.stream, Spaces(column - p.position));
    } else {
      LinesBreak(p.stream);
    }
  }

  /** A paragraph break ends the line and leaves one empty line, however often it is asked for. */
  lemma ParagraphBreak(p: Page)
    requires Sound(p) && !p.startOfParagraph
    ensures var q := ParagraphStarted(p);
            && ParagraphStarted(q) == q && LastLine(q.stream) == ""
            && EarlierLines(q.stream) == Lines(p.stream) + if p.position > 0 then [""] else []
  {
    var q := LineStarted(p);
    LinesBreak(p.stream);
    LinesBreak(q.stream);
    if p.position > 0 { assert Lines(q.stream) == EarlierLines(q.stream) + [LastLine(q.stream)]; }
  }

  // ------------------------------------------------------------------ fewest lines

  /** Where a word ends on the line it is put on. */
  function Place(p: Page, pos: nat, wrap: bool, word: string): nat {
    if wrap || pos == 0 then |p.indent| + |word| else pos + 1 + |word|
  }

  /** A choice of line breaks before words; without a break, the word must end within the width. */
  predicate Layout(p: Page, pos: nat, words: seq<string>, breaks: seq<bool>)
    decreases |words|
  {
    |breaks| == |words| && (words != [] ==>
      && (!breaks[0] && pos > 0 ==> pos + 1 + |words[0]| <= p.width)
      && Layout(p, Place(p, pos, breaks[0], words[0]), words[1..], breaks[1..]))
  }

  function Cost(p: Page, pos: nat, words: seq<string>, breaks: seq<bool>): nat
    requires |breaks| == |words|
    decreases |words|
  {
    if words == [] then 0
    else (if breaks[0] && pos > 0 then 1 else 0) + Cost(p, Place(p, pos, breaks[0], words[0]), words[1..], breaks[1..])
  }

  predicate Overflows(p: Page, pos: nat, word: string) {
    pos > 0 && pos + 1 + |word| > p.width
  }

  /** The line breaks of the writer. */
  function Greedy(p: Page, pos: nat, words: seq<string>): nat
    decreases |words|
  {
    if words == [] then 0
    else
      var wrap := Overflows(p, pos, words[0]);
      (if wrap then 1 else 0) + Greedy(p, Place(p, pos, wrap, words[0]), words[1..])
  }

  predicate NonEmpty(words: seq<string>) { forall i :: 0 <= i < |words| ==> words[i] != "" }

  /** Being further along a line never saves a break. */
  lemma {:induction false} FurtherAlong(p: Page, near: nat, far: nat, words: seq<string>)
    requires 0 < near <= far && NonEmpty(words)
    ensures Greedy(p, near, words) <= Greedy(p, far, words)
    decreases |words|, 0
  {
    if words != [] {
      var w, rest := words[0], words[1..];
      if Overflows(p, near, w) {
      } else if Overflows(p, far, w) {
        OneBreakMore(p, near + 1 + |w|, |p.indent| + |w|, rest);
      } else {
        FurtherAlong(p, near + 1 + |w|, far + 1 + |w|, rest);
      }
    }
  }

  /** No place on a line costs more than one break over a place at or after the indentation. */
  lemma {:induction false} OneBreakMore(p: Page, here: nat, there: nat, words: seq<string>)
    requires 0 < here && 0 < there && |p.indent| <= there && NonEmpty(words)
    ensures Greedy(p, here, words) <= Greedy(p, there, words) + 1
    decreases |words|, 1
  {
    if words != [] {
      var w, rest, anew := words[0], words[1..], |p.indent| + |words[0]|;
      if Overflows(p, here, w) {
        if !Overflows(p, there, w) { FurtherAlong(p, anew, there + 1 + |w|, rest); }
      } else if Overflows(p, there, w) {
        OneBreakMore(p, here + 1 + |w|, anew, rest);
      } else {
        OneBreakMore(p, here + 1 + |w|, there + 1 + |w|, rest);
      }
    }
  }

  /** No layout has fewer line breaks than the greedy one. */
  lemma {:induction false} GreedyIsBest(p: Page, pos: nat, words: seq<string>, breaks: seq<bool>)
    requires Layout(p, pos, words, breaks) && NonEmpty(words)
    ensures Greedy(p, pos, words) <= Cost(p, pos, words, breaks)
    decreases |words|
  {
    if words != [] {
      var w, rest, anew := words[0], words[1..], |p.indent| + |words[0]|;
      GreedyIsBest(p, Place(p, pos, breaks[0], w), rest, breaks[1..]);
      if pos > 0 && breaks[0] && !Overflows(p, pos, w) {
        OneBreakMore(p, pos + 1 + |w|, anew, rest);
      }
    }
  }

  /** The greedy choices, as a layout. */
  function GreedyBreaks(p: Page, pos: nat, words: seq<string>): (breaks: seq<bool>)
    ensures |breaks| == |words|
    decreases |words|
  {
    if words == [] then []
    else
      var wrap := Overflows(p, pos, words[0]);
      [wrap] + GreedyBreaks(p, Place(p, pos, wrap, words[0]), words[1..])
  }

  lemma {:induction false} GreedyIsLayout(p: Page, pos: nat, words: seq<string>)
    ensures Layout(p, pos, words, GreedyBreaks(p, pos, words))
    ensures Cost(p, pos, words, GreedyBreaks(p, pos, words)) == Greedy(p, pos, words)
    decreases |words|
  {
    if words != [] {
      var next := Place(p, pos, Overflows(p, pos, words[0]), words[0]);
      GreedyIsLayout(p, next, words[1..]);
      assert GreedyBreaks(p, pos, words)[1..] == GreedyBreaks(p, next, words[1..]);
    }
  }

  lemma WordLines(p: Page, word: string)
    requires Sound(p) && IsWord(word) && p.position == p.lastWritePosition
    ensures var q := WordWritten(p, word); var wrap := Overflows(p, p.position, word);
            && |Lines(q.stream)| == |Lines(p.stream)| + (if wrap then 1 else 0)
            && q.position == q.lastWritePosition == Place(p, p.position, wrap, word)
  {
    WordLine(p, word);
    WordPosition(p, word);
  }

  lemma {:induction false} WritesGreedily(p: Page, words: seq<string>)
    requires Sound(p) && p.position == p.lastWritePosition && forall i :: 0 <= i < |words| ==> IsWord(words[i])
    ensures |Lines(WordsWritten(p, words).stream)| == |Lines(p.stream)| + Greedy(p, p.position, words)
    decreases |words|
  {
    if words != [] {
      var q := WordWritten(p, words[0]);
      WordLines(p, words[0]);
      WordSound(p, words[0]);
      WritesGreedily(q, words[1..]);
      GreedySame(p, q, q.position, words[1..]);
    }
  }

  lemma {:induction false} GreedySame(p: Page, q: Page, pos: nat, words: seq<string>)
    requires p.width == q.width && p.indent == q.indent
    ensures Greedy(p, pos, words) == Greedy(q, pos, words)
    decreases |words|
  {
    if words != [] { GreedySame(p, q, Place(p, pos, Overflows(p, pos, words[0]), words[0]), words[1..]); }
  }

  lemma WordsNonEmpty(block: string)
    ensures NonEmpty(Words(block)) && forall i :: 0 <= i < |Words(block)| ==> IsWord(Words(block)[i])
  {
    WordsAreWords(block);
  }

  /**
   * A paragraph written at a line start or after a word takes no more lines than any
   * other choice of line breaks that keeps the words within the width where a word
   * follows another, whatever the indentation.
   */
  lemma FewestLines(p: Page, block: string, breaks: seq<bool>)
    requires Sound(p) && p.position == p.lastWritePosition && block != ""
    requires Layout(p, p.position, Words(block), breaks)
    ensures |Lines(BlockWritten(p, block).stream)| <= |Lines(p.stream)| + Cost(p, p.position, Words(block), breaks)
  {
    WordsNonEmpty(block);
    WritesGreedily(p, Words(block));
    GreedyIsBest(p, p.position, Words(block), breaks);
  }

  // ------------------------------------------------------------- after a column skip

  /** After a skip the first word needs no space before it. */
  function PlaceSkipped(p: Page, wrap: bool, word: string): nat {
    if wrap then |p.indent| + |word| else p.position + |word|
  }

  predicate LayoutSkipped(p: Page, words: seq<string>, breaks: seq<bool>) {
    |breaks| == |words| && (words != [] ==>
      && (!breaks[0] ==> p.position + |words[0]| <= p.width)
      && Layout(p, PlaceSkipped(p, breaks[0], words[0]), words[1..], breaks[1..]))
  }

  function CostSkipped(p: Page, words: seq<string>, breaks: seq<bool>): nat
    requires |breaks| == |words|
  {
    if words == [] then 0
    else (if breaks[0] then 1 else 0) + Cost(p, PlaceSkipped(p, breaks[0], words[0]), words[1..], breaks[1..])
  }

  /** The writer still counts the space. */
  function GreedySkipped(p: Page, words: seq<string>): nat {
    if words == [] then 0
    else
      var wrap := Overflows(p, p.position, words[0]);
      (if wrap then 1 else 0) + Greedy(p, PlaceSkipped(p, wrap, words[0]), words[1..])
  }

  lemma WordLinesSkipped(p: Page, word: string)
    requires Sound(p) && IsWord(word) && 0 < p.position != p.lastWritePosition
    ensures var q := WordWritten(p, word); var wrap := Overflows(p, p.position, word);
            && |Lines(q.stream)| == |Lines(p.stream)| + (if wrap then 1 else 0)
            && q.position == q.lastWritePosition == PlaceSkipped(p, wrap, word)
  {
    WordLine(p, word);
    WordPosition(p, word);
  }

  lemma WritesSkipped(p: Page, words: seq<string>)
    requires Sound(p) && 0 < p.position != p.lastWritePosition && forall i :: 0 <= i < |words| ==> IsWord(words[i])
    ensures |Lines(WordsWritten(p, words).stream)| == |Lines(p.stream)| + GreedySkipped(p, words)
  {
    if words != [] {
      var q := WordWritten(p, words[0]);
      WordLinesSkipped(p, words[0]);
      WordSound(p, words[0]);
      WritesGreedily(q, words[1..]);
      GreedySame(p, q, q.position, words[1..]);
    }
  }

  /**
   * The first word would end exactly at the width, and starting the next line with it
   * does not make the words after it need one line less.
   */
  predicate WastesLine(p: Page, words: seq<string>) {
    words != [] && p.position + |words[0]| == p.width &&
    Greedy(p, p.width, words[1..]) == Greedy(p, |p.indent| + |words[0]|, words[1..])
  }

  /** From the width on, every word goes to a new line, so it does not matter how far on. */
  lemma BeyondWidth(p: Page, near: nat, far: nat, words: seq<string>)
    requires 0 < near && 0 < far && p.width <= near && p.width <= far && NonEmpty(words)
    ensures Greedy(p, near, words) == Greedy(p, far, words)
  {
    if words != [] { assert Overflows(p, near, words[0]) && Overflows(p, far, words[0]); }
  }

  /** At the width, at most one line is lost against the start of the next, and never one won. */
  lemma AtTheWidth(p: Page, word: string, rest: seq<string>)
    requires 0 < p.position && p.position + |word| == p.width && word != "" && NonEmpty(rest)
    ensures var anew := Greedy(p, |p.indent| + |word|, rest); anew <= Greedy(p, p.width, rest) <= anew + 1
  {
    OneBreakMore(p, p.width, |p.indent| + |word|, rest);
    if |p.indent| + |word| <= p.width {
      FurtherAlong(p, |p.indent| + |word|, p.width, rest);
    } else {
      BeyondWidth(p, p.width, |p.indent| + |word|, rest);
    }
  }

  lemma SkippedAtLeast(p: Page, words: seq<string>, breaks: seq<bool>)
    requires 0 < p.position && LayoutSkipped(p, words, breaks) && NonEmpty(words) && !WastesLine(p, words)
    ensures GreedySkipped(p, words) <= CostSkipped(p, words, breaks)
  {
    if words != [] {
      var w, rest, anew := words[0], words[1..], |p.indent| + |words[0]|;
      GreedyIsBest(p, PlaceSkipped(p, breaks[0], w), rest, breaks[1..]);
      if Overflows(p, p.position, w) {
        if !breaks[0] { AtTheWidth(p, w, rest); }
      } else if breaks[0] {
        OneBreakMore(p, p.position + |w|, anew, rest);
      }
    }
  }

  /** The layout that does without the wasted line. */
  lemma SkippedBetter(p: Page, words: seq<string>) returns (breaks: seq<bool>)
    requires 0 < p.position && WastesLine(p, words)
    ensures LayoutSkipped(p, words, breaks) && CostSkipped(p, words, breaks) < GreedySkipped(p, words)
  {
    var tail := GreedyBreaks(p, p.width, words[1..]);
    GreedyIsLayout(p, p.width, words[1..]);
    breaks := [false] + tail;
    assert breaks[1..] == tail;
  }

  /** No choice of line breaks for a paragraph after a skip takes fewer lines than the writer. */
  ghost predicate FewestSkipped(p: Page, block: string) {
    forall breaks :: LayoutSkipped(p, Words(block), breaks) ==>
      |Lines(BlockWritten(p, block).stream)| <= |Lines(p.stream)| + CostSkipped(p, Words(block), breaks)
  }

  /** After a column skip a paragraph takes the fewest lines if and only if its first word wastes none. */
  lemma FewestLinesSkipped(p: Page, block: string)
    requires Sound(p) && 0 < p.position != p.lastWritePosition && block != ""
    ensures FewestSkipped(p, block) <==> !WastesLine(p, Words(block))
  {
    WordsNonEmpty(block);
    WritesSkipped(p, Words(block));
    if WastesLine(p, Words(block)) {
      var breaks := SkippedBetter(p, Words(block));
    } else {
      forall breaks | LayoutSkipped(p, Words(block), breaks)
        ensures |Lines(BlockWritten(p, block).stream)| <= |Lines(p.stream)| + CostSkipped(p, Words(block), breaks)
      {
        SkippedAtLeast(p, Words(block), breaks);
      }
    }
  }

  /** After a column skip the writer counts a space it does not write, and can break a line for nothing. */
  lemma SkipCanWasteALine(width: nat, column: nat, word: string)
    requires IsWord(word) && 0 < column && column + |word| == width
    ensures var p := Skipped(Blank(width), column); var t := WordWritten(p, word).stream;
            p.stream == Spaces(column) && EarlierLines(t) == [Spaces(column)] && LastLine(t) == word
  {
    var p := Skipped(Blank(width), column);
    SkippedSound(Blank(width), column);
    WordLine(p, word);
    OneLine(Spaces(column));
    EmptyParts(Spaces(column));
    EmptyParts(word);
  }

  lemma OneLine(x: string)
    requires '\n' !in x
    ensures Lines(x) == [x]
  {
    LinesAppend("", x);
    assert "" + x == x;
    assert Lines(x) == EarlierLines(x) + [LastLine(x)];
  }
}
