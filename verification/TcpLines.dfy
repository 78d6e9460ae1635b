/** The lines that the TCP decoder reads, byte by byte. */
module TcpLines {
  import opened Bytes
  import opened Messages
  import opened TcpDecoder

  /** Each letter as a capital, as a small letter or as a bar. */
  predicate Spells(word: string, s: bytes) {
    |s| == |word| &&
    forall i :: 0 <= i < |word| ==>
      s[i] == word[i] as int || ('A' <= word[i] <= 'Z' && (s[i] == word[i] as int + 32 || s[i] == 124))
  }

  predicate SpellsAt(word: string, s: bytes, k: nat) { k + |word| <= |s| && Spells(word, s[k..k + |word|]) }

  predicate IsHeadOf(word: string, head: bytes) { word != "" && Spells(word, head) && head[0] != 124 }

  predicate OneLine(s: bytes) { forall i :: 0 <= i < |s| ==> s[i] != 10 && s[i] != 13 }

  predicate IsName(s: bytes) { s != [] && |s| <= 20 && OneLine(s) }

  predicate IsContent(s: bytes) { s != [] && |s| <= 60000 && OneLine(s) }

  /** After a space, the text holds the separator once more, with something after it. */
  predicate Holds(separator: string, text: bytes) {
    exists j: nat :: j <= |text| && j + |separator| <= |text| && SpellsAt(separator, [32] + text, j)
  }

  /** Something before the separator, and something after it. */
  predicate Divides(separator: string, s: bytes) {
    exists k: nat :: 1 <= k <= |s| && k + |separator| < |s| && SpellsAt(separator, s, k)
  }

  predicate HoldsLoginAt(rest: bytes, j: nat) {
    j + 4 <= |rest| && SpellsAt(" AS ", [32] + rest, j) && Divides(" USING ", ([32] + rest)[j + 4..])
  }

  predicate HoldsLogin(rest: bytes) {
    exists j: nat :: j <= |rest| && HoldsLoginAt(rest, j)
  }

  /** The six types, each once, in some order. */
  predicate IsAnyOrder(order: seq<MessageType>) {
    && (forall kind :: kind in order <==> kind in {ERR, REPLY, AUTH, JOIN, MSG, BYE})
    && (forall i, j :: 0 <= i < j < |order| ==> order[i] != order[j])
  }

  lemma SpellsMatches(word: string, s: bytes)
    ensures Spells(word, s) <==> Matches(word, s)
  {
    if Matches(word, s) {
      forall i | 0 <= i < |word|
        ensures s[i] == word[i] as int || ('A' <= word[i] <= 'Z' && (s[i] == word[i] as int + 32 || s[i] == 124))
      {
        assert Fits(word[i], s[i]);
      }
    }
  }

  lemma HoldsLater(separator: string, text: bytes)
    ensures Holds(separator, text) <==> LaterSeparator(separator, text)
  {
    var u := [32] + text;
    forall j: nat | j + |separator| <= |text| ensures SpellsAt(separator, u, j) <==> OccursAt(separator, u, j) {
      SpellsMatches(separator, u[j..j + |separator|]);
    }
    if LaterSeparator(separator, text) {
      var j: nat :| j <= |text| && OccursAt(separator, u, j);
      assert SpellsAt(separator, u, j);
    }
    if Holds(separator, text) {
      var j: nat :| j <= |text| && j + |separator| <= |text| && SpellsAt(separator, u, j);
      assert OccursAt(separator, u, j);
    }
  }

  lemma DividesGroups(separator: string, s: bytes)
    ensures Divides(separator, s) <==> Groups(s, separator).Some?
  {
    forall k: nat | 1 <= k && k + |separator| < |s| ensures SpellsAt(separator, s, k) <==> SplitsAt(s, separator, k) {
      SpellsMatches(separator, s[k..k + |separator|]);
    }
    if Groups(s, separator).Some? { assert SpellsAt(separator, s, LastSplit(s, separator, |s|).value); }
  }

  lemma HoldsLoginLater(rest: bytes)
    ensures HoldsLogin(rest) <==> LaterAuthSeparator(rest)
  {
    var u := [32] + rest;
    forall j: nat | j <= |rest| ensures HoldsLoginAt(rest, j) <==> LaterAuthAt(rest, j) {
      if j + 4 <= |rest| {
        SpellsMatches(" AS ", u[j..j + 4]);
        DividesGroups(" USING ", u[j + 4..]);
      }
    }
  }

  lemma AnyOrderIsOrder(order: seq<MessageType>)
    requires IsAnyOrder(order)
    ensures IsOrder(order)
  {
    forall kind ensures kind in order <==> Keyword(kind) != "" {
      assert kind in {ERR, REPLY, AUTH, JOIN, MSG, BYE} <==> Keyword(kind) != "";
    }
  }

  lemma HeadIs(kind: MessageType, head: bytes)
    requires Keyword(kind) != ""
    ensures IsHeadOf(Keyword(kind), head) <==> IsHead(kind, head)
  {
    SpellsMatches(Keyword(kind), head);
  }

  /** MSG and ERR, for instance `msg from bob is hi`. */
  lemma TextLines(order: seq<MessageType>, kind: MessageType, head: bytes, author: bytes, sep: bytes, text: bytes)
    requires IsAnyOrder(order) && Spells(" IS ", sep)
    requires (kind == MSG && IsHeadOf("MSG FROM ", head)) || (kind == ERR && IsHeadOf("ERR FROM ", head))
    ensures Decode(order, head + (author + sep + text) + [13, 10]) ==
              Ok(Message(kind, text, author, false, 65535, 0)) <==>
            IsName(author) && IsContent(text) && !Holds(" IS ", text)
  {
    AnyOrderIsOrder(order);
    HeadIs(kind, head);
    SpellsMatches(" IS ", sep);
    HoldsLater(" IS ", text);
    TextRead(order, kind, head, author, sep, text);
  }

  lemma JoinLines(order: seq<MessageType>, head: bytes, channel: bytes, sep: bytes, author: bytes)
    requires IsAnyOrder(order) && IsHeadOf("JOIN ", head) && Spells(" AS ", sep)
    ensures Decode(order, head + (channel + sep + author) + [13, 10]) ==
              Ok(Message(JOIN, [], author, false, 65535, 0)) <==>
            channel != [] && OneLine(channel) && IsName(author) && !Holds(" AS ", author)
  {
    AnyOrderIsOrder(order);
    HeadIs(JOIN, head);
    SpellsMatches(" AS ", sep);
    HoldsLater(" AS ", author);
    JoinRead(order, head, channel, sep, author);
  }

  lemma ByeLines(order: seq<MessageType>, head: bytes, author: bytes)
    requires IsAnyOrder(order) && IsHeadOf("BYE FROM ", head)
    ensures Decode(order, head + author + [13, 10]) == Ok(Message(BYE, [], author, false, 65535, 0)) <==> IsName(author)
  {
    AnyOrderIsOrder(order);
    HeadIs(BYE, head);
    ByeRead(order, head, author);
  }

  lemma AuthLines(order: seq<MessageType>, head: bytes, username: bytes, sep: bytes, author: bytes, using: bytes,
      secret: bytes)
    requires IsAnyOrder(order) && IsHeadOf("AUTH ", head) && Spells(" AS ", sep) && Spells(" USING ", using)
    ensures var rest := author + using + secret;
            Decode(order, head + (username + sep + rest) + [13, 10]) ==
              Ok(Message(AUTH, [], username, false, 65535, 0)) <==>
            IsName(username) && OneLine(author) && OneLine(secret) && Divides(" USING ", rest) && !HoldsLogin(rest)
  {
    var rest := author + using + secret;
    AnyOrderIsOrder(order);
    HeadIs(AUTH, head);
    SpellsMatches(" AS ", sep);
    SpellsMatches(" USING ", using);
    DividesGroups(" USING ", rest);
    RestSplits(author, using, secret);
    HoldsLoginLater(rest);
    AuthRead(order, head, username, sep, author, using, secret);
  }

  /** The result is positive for `OK` without bars. */
  lemma ReplyLines(order: seq<MessageType>, head: bytes, status: bytes, sep: bytes, text: bytes)
    requires IsAnyOrder(order) && IsHeadOf("REPLY ", head) && Spells(" IS ", sep)
    requires Spells("OK", status) || Spells("NOK", status)
    ensures Decode(order, head + (status + sep + text) + [13, 10]) ==
              Ok(Message(REPLY, text, [], |status| == 2 && 124 !in status, 65535, 0)) <==>
            IsContent(text)
  {
    AnyOrderIsOrder(order);
    HeadIs(REPLY, head);
    SpellsMatches(" IS ", sep);
    SpellsMatches("OK", status);
    SpellsMatches("NOK", status);
    ReplyRead(order, head, status, sep, text);
  }

  // ------------------------------------------------------------------ over the limits

  const NOTHING := Message(NONE, [], [], false, 65535, 0)

  predicate IsPart(s: bytes) { s != [] && OneLine(s) }

  /** A field over its limit makes the decoder throw, with what was set before it. */
  lemma TextTooLong(order: seq<MessageType>, kind: MessageType, head: bytes, author: bytes, sep: bytes, text: bytes)
    requires IsAnyOrder(order) && Spells(" IS ", sep)
    requires (kind == MSG && IsHeadOf("MSG FROM ", head)) || (kind == ERR && IsHeadOf("ERR FROM ", head))
    requires IsPart(author) && IsPart(text) && !Holds(" IS ", text) && (|author| > 20 || |text| > 60000)
    ensures Decode(order, head + (author + sep + text) + [13, 10]) ==
            Thrown(NOTHING.(author := if |author| > 20 then [] else author))
  {
    var s := author + sep + text;
    AnyOrderIsOrder(order);
    HeadIs(kind, head);
    SpellsMatches(" IS ", sep);
    HoldsLater(" IS ", text);
    WrittenShape(kind, head, s);
    SeparatorBytes(" IS ", sep);
    ThreeNoBreaks(author, sep, text);
    SplitExact(author, " IS ", sep, text);
    DecodesShape(order, head + s + [13, 10], kind);
  }

  lemma JoinTooLong(order: seq<MessageType>, head: bytes, channel: bytes, sep: bytes, author: bytes)
    requires IsAnyOrder(order) && IsHeadOf("JOIN ", head) && Spells(" AS ", sep)
    requires IsPart(channel) && IsPart(author) && !Holds(" AS ", author) && |author| > 20
    ensures Decode(order, head + (channel + sep + author) + [13, 10]) == Thrown(NOTHING)
  {
    var s := channel + sep + author;
    AnyOrderIsOrder(order);
    HeadIs(JOIN, head);
    SpellsMatches(" AS ", sep);
    HoldsLater(" AS ", author);
    WrittenShape(JOIN, head, s);
    SeparatorBytes(" AS ", sep);
    ThreeNoBreaks(channel, sep, author);
    SplitExact(channel, " AS ", sep, author);
    DecodesShape(order, head + s + [13, 10], JOIN);
  }

  lemma ByeTooLong(order: seq<MessageType>, head: bytes, author: bytes)
    requires IsAnyOrder(order) && IsHeadOf("BYE FROM ", head) && OneLine(author) && |author| > 20
    ensures Decode(order, head + author + [13, 10]) == Thrown(NOTHING)
  {
    AnyOrderIsOrder(order);
    HeadIs(BYE, head);
    WrittenShape(BYE, head, author);
    DecodesShape(order, head + author + [13, 10], BYE);
  }

  lemma AuthTooLong(order: seq<MessageType>, head: bytes, username: bytes, sep: bytes, rest: bytes)
    requires IsAnyOrder(order) && IsHeadOf("AUTH ", head) && Spells(" AS ", sep)
    requires IsPart(username) && OneLine(rest) && Divides(" USING ", rest) && !HoldsLogin(rest) && |username| > 20
    ensures Decode(order, head + (username + sep + rest) + [13, 10]) == Thrown(NOTHING)
  {
    var s := username + sep + rest;
    AnyOrderIsOrder(order);
    HeadIs(AUTH, head);
    SpellsMatches(" AS ", sep);
    DividesGroups(" USING ", rest);
    HoldsLoginLater(rest);
    WrittenShape(AUTH, head, s);
    SeparatorBytes(" AS ", sep);
    ThreeNoBreaks(username, sep, rest);
    AuthSplitExact(username, sep, rest);
    DecodesShape(order, head + s + [13, 10], AUTH);
  }

  lemma ReplyTooLong(order: seq<MessageType>, head: bytes, status: bytes, sep: bytes, text: bytes)
    requires IsAnyOrder(order) && IsHeadOf("REPLY ", head) && Spells(" IS ", sep)
    requires (Spells("OK", status) || Spells("NOK", status)) && OneLine(text) && |text| > 60000
    ensures Decode(order, head + (status + sep + text) + [13, 10]) ==
            Thrown(NOTHING.(kind := REPLY, isOk := |status| == 2 && 124 !in status))
  {
    var s := status + sep + text;
    AnyOrderIsOrder(order);
    HeadIs(REPLY, head);
    SpellsMatches(" IS ", sep);
    SpellsMatches("OK", status);
    SpellsMatches("NOK", status);
    WrittenShape(REPLY, head, s);
    SeparatorBytes(" IS ", sep);
    StatusBytes(status);
    ThreeNoBreaks(status, sep, text);
    ReplyGroupsRead(status, sep, text);
    DecodesShape(order, head + s + [13, 10], REPLY);
  }

  // -------------------------------------------------------------- everything else

  /** A line, its end, and whatever else came with it. */
  predicate IsCut(d: bytes, line: bytes, rest: bytes) { d == line + [13, 10] + rest && OneLine(line) && OneLine(rest) }

  /** Only data of one line, perhaps with the start of another, are read; the start is ignored. */
  lemma OnlyLines(order: seq<MessageType>, d: bytes)
    ensures forall line, rest :: IsCut(d, line, rest) ==> Decode(order, d) == Decode(order, line + [13, 10])
    ensures (forall line, rest :: !IsCut(d, line, rest)) ==>
            Decode(order, d) == Ok(NOTHING)
  {
    forall line, rest | IsCut(d, line, rest) ensures Decode(order, d) == Decode(order, line + [13, 10]) {
      assert d[..|line|] == line && d[|line| + 2..] == rest;
      LineLengthIs(d, |line|);
      LineEnds(line);
      SameLine(order, d, line + [13, 10]);
    }
    if forall line, rest :: !IsCut(d, line, rest) {
      if LineOf(d).Some? {
        var n := LineLength(d);
        assert d == d[..n] + [13, 10] + d[n + 2..];
        assert IsCut(d, d[..n], d[n + 2..]);
      }
      forall kind | kind in order ensures Shape(kind, d).None? {}
      DecodesNothing(order, d);
    }
  }

  lemma {:induction false} SameLine(order: seq<MessageType>, d: bytes, e: bytes)
    requires LineOf(d) == LineOf(e)
    ensures Decode(order, d) == Decode(order, e)
  {
    if order != [] { SameLine(order[1..], d, e); }
  }

  predicate StartsSpelled(word: string, line: bytes) { |word| <= |line| && Spells(word, line[..|word|]) }

  lemma OtherStart(kind: MessageType, line: bytes)
    requires Keyword(kind) == "" || !StartsSpelled(Keyword(kind), line)
    ensures Shape(kind, line + [13, 10]).None?
  {
    WrittenLine(line);
    if |Keyword(kind)| <= |line| { SpellsMatches(Keyword(kind), line[..|Keyword(kind)|]); }
  }

  predicate StartsWithKeyword(line: bytes) {
    || StartsSpelled("ERR FROM ", line) || StartsSpelled("REPLY ", line) || StartsSpelled("AUTH ", line)
    || StartsSpelled("JOIN ", line) || StartsSpelled("MSG FROM ", line) || StartsSpelled("BYE FROM ", line)
  }

  lemma OtherKeyword(kind: MessageType, line: bytes)
    requires !StartsWithKeyword(line)
    ensures Shape(kind, line + [13, 10]).None?
  {
    OtherStart(kind, line);
  }

  /** A line that starts with none of the keywords is not read. */
  lemma NoKeyword(order: seq<MessageType>, line: bytes)
    requires !StartsWithKeyword(line)
    ensures Decode(order, line + [13, 10]) == Ok(NOTHING)
  {
    forall kind | kind in order ensures Shape(kind, line + [13, 10]).None? { OtherKeyword(kind, line); }
    DecodesNothing(order, line + [13, 10]);
  }
}
