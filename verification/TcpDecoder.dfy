/** The TCP decoder: the six line shapes, matched greedily, and the round trip with the encoder. */
module TcpDecoder {
  import opened Bytes
  import opened Messages
  import TcpEncoder

  /**
   * One byte against one pattern character: a capital stands for a class such as
   * `[M|m]`, which also contains the bar; a space stands for itself.
   */
  predicate Fits(p: char, b: byte) {
    if 'A' <= p <= 'Z' then b == p as int || b == p as int + 32 || b == '|' as int else b == p as int
  }

  predicate Matches(pattern: string, s: bytes) {
    |s| == |pattern| && forall i :: 0 <= i < |s| ==> Fits(pattern[i], s[i])
  }

  predicate StartsWith(pattern: string, s: bytes) { |pattern| <= |s| && Matches(pattern, s[..|pattern|]) }

  /** Bytes that `.` matches. */
  predicate NoBreaks(s: bytes) { forall i :: 0 <= i < |s| ==> s[i] != 13 && s[i] != 10 }

  /** The number of bytes before the first carriage return or line feed. */
  function LineLength(d: bytes): (n: nat)
    ensures n <= |d| && NoBreaks(d[..n]) && (n < |d| ==> d[n] == 13 || d[n] == 10)
  {
    if d == [] || d[0] == 13 || d[0] == 10 then 0
    else
      var n := LineLength(d[1..]);
      assert d[..n + 1] == [d[0]] + d[1..][..n];
      n + 1
  }

  /** The line before `\r\n.*`, if the data have that form. */
  function LineOf(d: bytes): Option<bytes> {
    var n := LineLength(d);
    if n + 1 < |d| && d[n] == 13 && d[n + 1] == 10 && NoBreaks(d[n + 2..]) then Some(d[..n]) else None
  }

  /** A separator of `(.+)<pattern>(.+)` at `k`: something before it and something after it. */
  predicate SplitsAt(s: bytes, pattern: string, k: nat) {
    1 <= k && k + |pattern| < |s| && Matches(pattern, s[k..k + |pattern|])
  }

  /** The greedy first group takes the last separator not after `k`. */
  function LastSplit(s: bytes, pattern: string, k: nat): (r: Option<nat>)
    ensures r.Some? ==> r.value <= k && SplitsAt(s, pattern, r.value)
    ensures forall j :: 0 <= j <= k && (r.None? || r.value < j) ==> !SplitsAt(s, pattern, j)
  {
    if SplitsAt(s, pattern, k) then Some(k)
    else if k == 0 then None
    else LastSplit(s, pattern, k - 1)
  }

  function Groups(s: bytes, pattern: string): Option<(bytes, bytes)> {
    match LastSplit(s, pattern, |s|)
    case None => None
    case Some(k) => Some((s[..k], s[k + |pattern|..]))
  }

  /** ` AS ` at `k`, followed by a match of `(.+) USING (.+)`. */
  predicate AuthSplitsAt(s: bytes, k: nat) {
    SplitsAt(s, " AS ", k) && Groups(s[k + 4..], " USING ").Some?
  }

  /** `(.+) AS (.+) USING (.+)`: the longest first group that leaves the rest a match. */
  function AuthSplit(s: bytes, k: nat): (r: Option<nat>)
    ensures r.Some? ==> r.value <= k && AuthSplitsAt(s, r.value)
    ensures forall j :: 0 <= j <= k && (r.None? || r.value < j) ==> !AuthSplitsAt(s, j)
  {
    if AuthSplitsAt(s, k) then Some(k)
    else if k == 0 then None
    else AuthSplit(s, k - 1)
  }

  function Keyword(kind: MessageType): string {
    match kind
    case ERR => "ERR FROM "
    case REPLY => "REPLY "
    case AUTH => "AUTH "
    case JOIN => "JOIN "
    case MSG => "MSG FROM "
    case BYE => "BYE FROM "
    case _ => ""
  }

  /** `OK` or `NOK`, then ` IS ` and something. */
  function ReplyGroups(s: bytes): Option<(bytes, bytes)> {
    if |s| > 6 && Matches("OK IS ", s[..6]) then Some((s[..2], s[6..]))
    else if |s| > 7 && Matches("NOK IS ", s[..7]) then Some((s[..3], s[7..]))
    else None
  }

  /** The groups that an extractor uses of a line of its shape. */
  function Extract(kind: MessageType, line: bytes): Option<(bytes, bytes)> {
    if Keyword(kind) == "" || !StartsWith(Keyword(kind), line) then None
    else
      var s := line[|Keyword(kind)|..];
      match kind
      case ERR => Groups(s, " IS ")
      case MSG => Groups(s, " IS ")
      case JOIN => Groups(s, " AS ")
      case REPLY => ReplyGroups(s)
      case AUTH => (match AuthSplit(s, |s|) { case Some(k) => Some((s[..k], [])) case None => None })
      case _ => if s == [] then None else Some((s, []))
  }

  /** `regex_match` with the shape of a type. */
  function Shape(kind: MessageType, d: bytes): Option<(bytes, bytes)> {
    match LineOf(d)
    case None => None
    case Some(line) => Extract(kind, line)
  }

  /** `status == "OK"` after `toupper`. */
  predicate IsOk(status: bytes) {
    |status| == 2 && status[0] in {'O' as int, 'o' as int} && status[1] in {'K' as int, 'k' as int}
  }

  const BLANK := New(NONE, [])

  /** The setter calls of each extractor; a setter that throws ends decoding. */
  function Filled(kind: MessageType, groups: (bytes, bytes)): Result<Message> {
    match kind
    case REPLY => BLANK.(isOk := IsOk(groups.0), kind := REPLY).SetText(groups.1)
    case JOIN => WithKind(BLANK.SetAuthor(groups.1), JOIN)
    case AUTH => WithKind(BLANK.SetAuthor(groups.0), AUTH)
    case BYE => WithKind(BLANK.SetAuthor(groups.0), BYE)
    case _ =>
      match BLANK.SetAuthor(groups.0)
      case Ok(m) => WithKind(m.SetText(groups.1), kind)
      case thrown => thrown
  }

  function WithKind(r: Result<Message>, kind: MessageType): Result<Message> {
    match r
    case Ok(m) => Ok(m.(kind := kind))
    case thrown => thrown
  }

  /** The first shape that matches, in the order in which the hash map is walked. */
  function Decode(order: seq<MessageType>, d: bytes): Result<Message> {
    if order == [] then Ok(BLANK)
    else
      match Shape(order[0], d)
      case Some(groups) => Filled(order[0], groups)
      case None => Decode(order[1..], d)
  }

  /** The search loop. */
  method DecodeLine(order: seq<MessageType>, d: bytes) returns (r: Result<Message>)
    ensures r == Decode(order, d)
  {
    var i := 0;
    while i < |order|
      invariant 0 <= i <= |order|
      invariant Decode(order, d) == Decode(order[i..], d)
    {
      var groups := Shape(order[i], d);
      if groups.Some? { return Filled(order[i], groups.value); }
      i := i + 1;
    }
    r := Ok(BLANK);
  }

  // ------------------------------------------------------------ independence of order

  /** The keys of the map of shapes, each once, in some order. */
  predicate IsOrder(order: seq<MessageType>) {
    && (forall kind :: kind in order <==> Keyword(kind) != "")
    && (forall i, j :: 0 <= i < j < |order| ==> order[i] != order[j])
  }

  /** Unless a line starts with a bar, its first letter decides which shape it can have. */
  lemma FirstLetterDecides(d: bytes, a: MessageType, b: MessageType)
    requires Shape(a, d).Some? && Shape(b, d).Some? && d[0] != '|' as int
    ensures a == b
  {
    var line := LineOf(d).value;
    FirstLetter(a, line);
    FirstLetter(b, line);
    assert line[0] == d[0];
  }

  lemma FirstLetter(kind: MessageType, line: bytes)
    requires Extract(kind, line).Some?
    ensures line != [] && Keyword(kind) != "" && Fits(Keyword(kind)[0], line[0])
  {
    assert line[..|Keyword(kind)|][0] == line[0];
  }

  lemma {:induction false} DecodesShape(order: seq<MessageType>, d: bytes, kind: MessageType)
    requires kind in order && Shape(kind, d).Some? && d[0] != '|' as int
    ensures Decode(order, d) == Filled(kind, Shape(kind, d).value)
  {
    if Shape(order[0], d).Some? {
      FirstLetterDecides(d, order[0], kind);
    } else {
      assert kind in order[1..];
      DecodesShape(order[1..], d, kind);
    }
  }

  lemma {:induction false} DecodesNothing(order: seq<MessageType>, d: bytes)
    requires forall kind :: kind in order ==> Shape(kind, d).None?
    ensures Decode(order, d) == Ok(BLANK)
  {
    if order != [] {
      assert order[0] in order;
      DecodesNothing(order[1..], d);
    }
  }

  lemma {:induction false} DecodesSome(order: seq<MessageType>, d: bytes) returns (kind: MessageType)
    requires exists k :: k in order && Shape(k, d).Some?
    ensures kind in order && Shape(kind, d).Some? && Decode(order, d) == Filled(kind, Shape(kind, d).value)
  {
    if Shape(order[0], d).Some? { kind := order[0]; } else { kind := DecodesSome(order[1..], d); }
  }

  /** An order that starts with a given key. */
  function OrderFrom(kind: MessageType): seq<MessageType> {
    match kind
    case REPLY => [REPLY, ERR, AUTH, JOIN, MSG, BYE]
    case AUTH => [AUTH, ERR, REPLY, JOIN, MSG, BYE]
    case JOIN => [JOIN, ERR, REPLY, AUTH, MSG, BYE]
    case MSG => [MSG, ERR, REPLY, AUTH, JOIN, BYE]
    case BYE => [BYE, ERR, REPLY, AUTH, JOIN, MSG]
    case _ => [ERR, REPLY, AUTH, JOIN, MSG, BYE]
  }

  lemma OrderFromHasKeys(kind: MessageType)
    requires Keyword(kind) != ""
    ensures forall k :: k in OrderFrom(kind) <==> Keyword(k) != ""
  {
  }

  lemma OrderFromStarts(kind: MessageType)
    requires kind in {ERR, REPLY, AUTH, JOIN, MSG, BYE}
    ensures var order := OrderFrom(kind);
            order[0] == kind && forall i, j :: 0 <= i < j < |order| ==> order[i] != order[j]
  {
  }

  lemma HasKeyword(kind: MessageType)
    ensures Keyword(kind) != "" <==> kind in {ERR, REPLY, AUTH, JOIN, MSG, BYE}
  {
  }

  lemma OrderFromIsOrder(kind: MessageType)
    requires Keyword(kind) != ""
    ensures IsOrder(OrderFrom(kind)) && OrderFrom(kind)[0] == kind
  {
    HasKeyword(kind);
    OrderFromHasKeys(kind);
    OrderFromStarts(kind);
  }

  /** Two shapes match the line, and their extractors make different messages of it. */
  predicate Disagree(a: MessageType, b: MessageType, line: bytes) {
    && Extract(a, line).Some? && Extract(b, line).Some?
    && Filled(a, Extract(a, line).value) != Filled(b, Extract(b, line).value)
  }

  ghost predicate Ambiguous(d: bytes) {
    LineOf(d).Some? && exists a, b :: Disagree(a, b, LineOf(d).value)
  }

  predicate OrdersDisagree(first: seq<MessageType>, second: seq<MessageType>, d: bytes) {
    IsOrder(first) && IsOrder(second) && Decode(first, d) != Decode(second, d)
  }

  lemma AmbiguousOrders(d: bytes)
    ensures (exists first, second :: OrdersDisagree(first, second, d)) <==> Ambiguous(d)
  {
    if Ambiguous(d) {
      var a, b :| Disagree(a, b, LineOf(d).value);
      OrderFromIsOrder(a);
      OrderFromIsOrder(b);
      assert OrdersDisagree(OrderFrom(a), OrderFrom(b), d);
    }
    if first, second :| OrdersDisagree(first, second, d) {
      OrdersDiffer(first, second, d);
    }
  }

  lemma OrdersDiffer(first: seq<MessageType>, second: seq<MessageType>, d: bytes)
    requires IsOrder(first) && IsOrder(second)
    ensures Decode(first, d) != Decode(second, d) ==> Ambiguous(d)
  {
    if kind :| kind in first && Shape(kind, d).Some? {
      assert kind in second;
      var a := DecodesSome(first, d);
      var b := DecodesSome(second, d);
      assert Decode(first, d) != Decode(second, d) ==> Disagree(a, b, LineOf(d).value);
    } else {
      DecodesNothing(first, d);
      DecodesNothing(second, d);
    }
  }

  // ------------------------------------------------------ two keywords for one line

  predicate Bars(n: nat, line: bytes) { n <= |line| && forall i :: 0 <= i < n ==> line[i] == '|' as int }

  /** Three bars, ` FROM `, and an author within the limit before ` IS ` and a text: an ERR, a MSG and a BYE. */
  predicate TextBars(line: bytes) {
    && StartsWith("MSG FROM ", line) && Bars(3, line)
    && var groups := Groups(line[9..], " IS ");
       groups.Some? && |groups.value.0| <= MAX_AUTHOR
  }

  /** Four bars, a space, and a match of the groups of an AUTH, one of whose names is within the limit. */
  predicate NameBars(line: bytes) {
    && Bars(4, line) && |line| > 4 && line[4] == 32
    && var s := line[5..];
       var k := AuthSplit(s, |s|);
       k.Some? && (k.value <= MAX_AUTHOR || LastGroup(s) <= MAX_AUTHOR)
  }

  /** The length of what follows the last ` AS `. */
  function LastGroup(s: bytes): nat {
    match Groups(s, " AS ")
    case Some(groups) => |groups.1|
    case None => 0
  }

  predicate BarsDecide(line: bytes) { TextBars(line) || NameBars(line) }

  lemma KeywordByte(kind: MessageType, line: bytes, i: nat)
    requires StartsWith(Keyword(kind), line) && i < |Keyword(kind)|
    ensures Fits(Keyword(kind)[i], line[i])
  {
    assert line[..|Keyword(kind)|][i] == line[i];
  }

  /** The blank after the keyword tells how long it is. */
  lemma KeywordSpace(kind: MessageType, line: bytes)
    requires Keyword(kind) != "" && StartsWith(Keyword(kind), line)
    ensures |line| > 4
    ensures kind in {ERR, MSG, BYE} <==> line[3] == 32
    ensures kind in {AUTH, JOIN} <==> line[3] != 32 && line[4] == 32
  {
    KeywordByte(kind, line, 3);
    KeywordByte(kind, line, 4);
  }

  lemma SharedByte(a: MessageType, b: MessageType, line: bytes, i: nat)
    requires StartsWith(Keyword(a), line) && StartsWith(Keyword(b), line) && i < |Keyword(a)| && i < |Keyword(b)|
    requires Keyword(a)[i] != Keyword(b)[i] && 'A' <= Keyword(a)[i] <= 'Z' && 'A' <= Keyword(b)[i] <= 'Z'
    ensures line[i] == '|' as int
  {
    KeywordByte(a, line, i);
    KeywordByte(b, line, i);
  }

  /** Two keywords start the same line only if its letters are bars. */
  lemma TwoKeywords(a: MessageType, b: MessageType, line: bytes)
    requires a != b && Keyword(a) != "" && Keyword(b) != ""
    requires StartsWith(Keyword(a), line) && StartsWith(Keyword(b), line)
    ensures (a in {ERR, MSG, BYE} && b in {ERR, MSG, BYE} && Bars(3, line)) ||
            (a in {AUTH, JOIN} && b in {AUTH, JOIN} && Bars(4, line) && |line| > 4 && line[4] == 32)
  {
    KeywordSpace(a, line);
    KeywordSpace(b, line);
    SharedByte(a, b, line, 0);
    SharedByte(a, b, line, 1);
    SharedByte(a, b, line, 2);
    if a == AUTH || a == JOIN { SharedByte(a, b, line, 3); }
  }

  lemma TextBarsStart(kind: MessageType, line: bytes)
    requires kind in {ERR, MSG, BYE} && Bars(3, line)
    ensures StartsWith(Keyword(kind), line) <==> StartsWith("MSG FROM ", line)
  {
    if |line| >= 9 {
      forall i | 0 <= i < 9 ensures Fits(Keyword(kind)[i], line[i]) <==> Fits("MSG FROM "[i], line[i]) {
        assert Keyword(kind)[3..] == "MSG FROM "[3..] == " FROM ";
        if i >= 3 { assert Keyword(kind)[i] == Keyword(kind)[3..][i - 3] == "MSG FROM "[i]; }
      }
    }
  }

  lemma NameBarsStart(kind: MessageType, line: bytes)
    requires kind in {AUTH, JOIN} && Bars(4, line) && |line| > 4 && line[4] == 32
    ensures StartsWith(Keyword(kind), line)
  {
  }

  /** Two shapes with the keyword in three bars make different messages if the author before ` IS ` fits. */
  lemma TextBarsExact(line: bytes)
    requires Bars(3, line) && StartsWith("MSG FROM ", line)
    ensures (exists a, b :: Disagree(a, b, line) && a in {ERR, MSG, BYE} && b in {ERR, MSG, BYE}) <==> TextBars(line)
  {
    var s := line[9..];
    TextBarsStart(ERR, line);
    TextBarsStart(MSG, line);
    TextBarsStart(BYE, line);
    if TextBars(line) { assert Disagree(ERR, MSG, line) || Disagree(MSG, BYE, line); }
  }

  /** The same for the keyword in four bars: an AUTH and a JOIN. */
  lemma NameBarsExact(line: bytes)
    requires Bars(4, line) && |line| > 4 && line[4] == 32
    ensures Disagree(AUTH, JOIN, line) <==> NameBars(line)
  {
    NameBarsStart(AUTH, line);
    NameBarsStart(JOIN, line);
  }

  lemma BarsAmbiguous(d: bytes)
    ensures Ambiguous(d) <==> LineOf(d).Some? && BarsDecide(LineOf(d).value)
  {
    if LineOf(d).Some? {
      var line := LineOf(d).value;
      if a, b :| Disagree(a, b, line) {
        TwoKeywords(a, b, line);
        if Bars(3, line) && StartsWith("MSG FROM ", line) { TextBarsExact(line); }
        if a in {ERR, MSG, BYE} { TextBarsStart(a, line); } else { NameBarsExact(line); }
      }
      if TextBars(line) { TextBarsExact(line); }
      if NameBars(line) { NameBarsExact(line); }
    }
  }

  /**
   * Two orders of the hash map decode the data differently if and only if the data are a
   * line whose keyword is written in bars and one of the authors in it fits.
   */
  lemma OrderMatters(d: bytes)
    ensures (exists first, second :: OrdersDisagree(first, second, d)) <==>
            LineOf(d).Some? && BarsDecide(LineOf(d).value)
  {
    AmbiguousOrders(d);
    BarsAmbiguous(d);
  }

  /** For all other data the order does not matter. */
  lemma OrderIndependent(first: seq<MessageType>, second: seq<MessageType>, d: bytes)
    requires IsOrder(first) && IsOrder(second) && (LineOf(d).Some? ==> !BarsDecide(LineOf(d).value))
    ensures Decode(first, d) == Decode(second, d)
  {
    OrderMatters(d);
    assert !OrdersDisagree(first, second, d);
  }

  /** The greedy groups, declared: the split with the longest first group, both groups non-empty. */
  lemma GroupsAreGreedy(s: bytes, pattern: string, a: bytes, t: bytes)
    ensures Groups(s, pattern) == Some((a, t)) <==>
            && |a| + |pattern| <= |s| && s == a + s[|a|..|a| + |pattern|] + t && a != [] && t != []
            && Matches(pattern, s[|a|..|a| + |pattern|])
            && forall k :: |a| < k <= |s| ==> !SplitsAt(s, pattern, k)
  {
    var r := LastSplit(s, pattern, |s|);
    if Groups(s, pattern) == Some((a, t)) {
      var k := r.value;
      assert s == s[..k] + s[k..k + |pattern|] + s[k + |pattern|..];
    } else if |a| + |pattern| <= |s| && s == a + s[|a|..|a| + |pattern|] + t && SplitsAt(s, pattern, |a|) {
      assert s[..|a|] == a && s[|a| + |pattern|..] == t;
    }
  }

  // ----------------------------------------------------------------- the round trip

  /** The line ends at the first break. */
  lemma {:induction false} LineLengthIs(d: bytes, n: nat)
    requires n < |d| && NoBreaks(d[..n]) && (d[n] == 13 || d[n] == 10)
    ensures LineLength(d) == n
  {
    if n > 0 {
      assert d[0] == d[..n][0];
      assert d[1..][..n - 1] == d[..n][1..];
      LineLengthIs(d[1..], n - 1);
    }
  }

  lemma LineEnds(line: bytes)
    requires NoBreaks(line)
    ensures LineOf(line + TcpEncoder.CRLF) == Some(line)
  {
    var d := line + TcpEncoder.CRLF;
    assert d[..|line|] == line && d[|line| + 2..] == [];
    LineLengthIs(d, |line|);
  }

  /** The pattern at `j`, with something after it. */
  predicate OccursAt(pattern: string, s: bytes, j: nat) {
    j + |pattern| < |s| && Matches(pattern, s[j..j + |pattern|])
  }

  /** A later separator in the second group, or one that overlaps the end of the first separator. */
  predicate LaterSeparator(pattern: string, t: bytes) {
    exists j: nat :: j <= |t| && OccursAt(pattern, [32] + t, j)
  }

  predicate IsSeparator(pattern: string) {
    |pattern| == 4 && pattern[0] == ' ' && 'A' <= pattern[1] <= 'Z' && 'A' <= pattern[2] <= 'Z' && pattern[3] == ' '
  }

  /** The two capitals of a separator, in whatever spelling, between two spaces. */
  lemma SeparatorBytes(pattern: string, sep: bytes)
    requires IsSeparator(pattern) && Matches(pattern, sep)
    ensures |sep| == 4 && sep[0] == 32 && sep[1] != 32 && sep[2] != 32 && sep[3] == 32 && NoBreaks(sep)
  {
  }

  lemma LaterSplit(a: bytes, pattern: string, sep: bytes, t: bytes, j: nat)
    requires IsSeparator(pattern) && Matches(pattern, sep)
    ensures SplitsAt(a + sep + t, pattern, |a| + 3 + j) <==> OccursAt(pattern, [32] + t, j)
  {
    var s, u := a + sep + t, [32] + t;
    SeparatorBytes(pattern, sep);
    assert s[|a| + 3..] == u;
    if j + 4 < |u| { assert s[|a| + 3 + j..|a| + 3 + j + 4] == u[j..j + 4]; }
  }

  lemma SplitsAtSpace(s: bytes, pattern: string, k: nat)
    requires IsSeparator(pattern)
    ensures SplitsAt(s, pattern, k) ==> s[k] == 32
  {
    if SplitsAt(s, pattern, k) { assert s[k..k + 4][0] == s[k]; }
  }

  lemma NoSplitInside(a: bytes, pattern: string, sep: bytes, t: bytes, j: nat)
    requires IsSeparator(pattern) && Matches(pattern, sep) && (j == 1 || j == 2)
    ensures !SplitsAt(a + sep + t, pattern, |a| + j)
  {
    SeparatorBytes(pattern, sep);
    assert (a + sep + t)[|a| + j] == sep[j];
    SplitsAtSpace(a + sep + t, pattern, |a| + j);
  }

  /** Without a later separator, none of the places after the one written is a split. */
  lemma NoLaterSplit(a: bytes, pattern: string, sep: bytes, t: bytes, k: nat)
    requires IsSeparator(pattern) && Matches(pattern, sep) && !LaterSeparator(pattern, t) && |a| < k
    ensures !SplitsAt(a + sep + t, pattern, k)
  {
    if k < |a| + 3 { NoSplitInside(a, pattern, sep, t, k - |a|); } else { LaterSplit(a, pattern, sep, t, k - |a| - 3); }
  }

  /** The greedy split finds the separator that was written exactly when no later one follows. */
  lemma SplitExact(a: bytes, pattern: string, sep: bytes, t: bytes)
    requires IsSeparator(pattern) && Matches(pattern, sep) && a != [] && t != []
    ensures var s := a + sep + t;
            (Groups(s, pattern) == Some((a, t)) <==> !LaterSeparator(pattern, t)) &&
            Groups(s, pattern).Some?
  {
    var s := a + sep + t;
    SeparatorBytes(pattern, sep);
    assert s[|a|..|a| + 4] == sep;
    assert SplitsAt(s, pattern, |a|);
    var k := LastSplit(s, pattern, |s|).value;
    assert |a| <= k;
    if LaterSeparator(pattern, t) {
      var j: nat :| j <= |t| && OccursAt(pattern, [32] + t, j);
      LaterSplit(a, pattern, sep, t, j);
      assert |s[..k]| != |a|;
    } else {
      if k > |a| { NoLaterSplit(a, pattern, sep, t, k); }
      assert s[..|a|] == a && s[|a| + 4..] == t;
    }
  }

  /** Whatever comes out with a type was matched by the shape of that type. */
  lemma DecodedBy(order: seq<MessageType>, d: bytes, kind: MessageType)
    requires IsOrder(order) && Keyword(kind) != ""
    ensures var r := Decode(order, d);
            r.Ok? && r.value.kind == kind ==> Shape(kind, d).Some? && r == Filled(kind, Shape(kind, d).value)
  {
    if k :| k in order && Shape(k, d).Some? {
      var found := DecodesSome(order, d);
      if Decode(order, d).Ok? { FilledKind(found, Shape(found, d).value); }
    } else {
      DecodesNothing(order, d);
    }
  }

  lemma FilledKind(kind: MessageType, groups: (bytes, bytes))
    requires Keyword(kind) != "" && Filled(kind, groups).Ok?
    ensures Filled(kind, groups).value.kind == kind
  {
  }

  /** A written line is a line only if nothing in it breaks it. */
  lemma WrittenLine(line: bytes)
    ensures LineOf(line + TcpEncoder.CRLF) == if NoBreaks(line) then Some(line) else None
  {
    var d := line + TcpEncoder.CRLF;
    var n := LineLength(d);
    assert d[..|line|] == line;
    if NoBreaks(line) {
      LineEnds(line);
    } else if n + 2 <= |line| {
      assert d[n + 2..][|line| - n - 2] == 13;
    }
  }

  /** A keyword in any spelling that does not start with a bar. */
  predicate IsHead(kind: MessageType, head: bytes) {
    Keyword(kind) != "" && Matches(Keyword(kind), head) && head[0] != '|' as int
  }

  lemma HeadNoBreaks(kind: MessageType, head: bytes)
    requires IsHead(kind, head)
    ensures NoBreaks(head)
  {
    var w := Keyword(kind);
    assert forall c :: c in w ==> 'A' <= c <= 'Z' || c == ' ';
    forall i | 0 <= i < |head| ensures head[i] != 13 && head[i] != 10 {
      assert w[i] in w && Fits(w[i], head[i]);
    }
  }

  /** The keyword is read, and what follows it is the line's remainder. */
  lemma WrittenShape(kind: MessageType, head: bytes, s: bytes)
    requires IsHead(kind, head)
    ensures var d := head + s + TcpEncoder.CRLF;
            && Shape(kind, d) == (if NoBreaks(s) then Extract(kind, head + s) else None)
            && d != [] && d[0] != '|' as int
    ensures StartsWith(Keyword(kind), head + s) && (head + s)[|Keyword(kind)|..] == s
  {
    HeadNoBreaks(kind, head);
    JoinNoBreaks(head, s);
    WrittenLine(head + s);
    assert (head + s)[..|head|] == head && (head + s)[|head|..] == s;
    assert (head + s + TcpEncoder.CRLF)[0] == head[0];
  }

  lemma PlainHead(kind: MessageType)
    requires Keyword(kind) != ""
    ensures IsHead(kind, Ascii(Keyword(kind)))
  {
    var w := Keyword(kind);
    assert forall c :: c in w ==> 'A' <= c <= 'Z' || c == ' ';
    forall i | 0 <= i < |w| ensures Fits(w[i], Ascii(w)[i]) { assert w[i] in w; }
    assert w[0] in w && w[0] != ' ';
  }

  lemma PlainSeparators()
    ensures Matches(" IS ", Ascii(" IS ")) && Matches(" AS ", Ascii(" AS ")) && Matches(" USING ", Ascii(" USING "))
  {
  }

  lemma JoinNoBreaks(a: bytes, b: bytes)
    ensures NoBreaks(a + b) <==> NoBreaks(a) && NoBreaks(b)
  {
    assert (a + b)[..|a|] == a && (a + b)[|a|..] == b;
    if NoBreaks(a + b) {
      forall i | 0 <= i < |a| ensures a[i] != 13 && a[i] != 10 { assert (a + b)[i] == a[i]; }
      forall i | 0 <= i < |b| ensures b[i] != 13 && b[i] != 10 { assert (a + b)[|a| + i] == b[i]; }
    }
  }

  lemma ThreeNoBreaks(a: bytes, sep: bytes, b: bytes)
    requires NoBreaks(sep)
    ensures NoBreaks(a + sep + b) <==> NoBreaks(a) && NoBreaks(b)
  {
    JoinNoBreaks(a, sep);
    JoinNoBreaks(a + sep, b);
  }

  // ------------------------------------------------------------------- MSG and ERR

  /** Non-empty, without line breaks, and no longer than a setter allows. */
  predicate IsField(s: bytes, limit: nat) { s != [] && |s| <= limit && NoBreaks(s) }

  predicate IsText(m: Message) { IsField(m.author, MAX_AUTHOR) && IsField(m.text, MAX_TEXT) }

  lemma FilledIs(kind: MessageType, groups: (bytes, bytes), author: bytes, text: bytes)
    requires (kind == MSG || kind == ERR) && |author| <= MAX_AUTHOR && |text| <= MAX_TEXT
    ensures Filled(kind, groups) == Ok(BLANK.(kind := kind, author := author, text := text)) <==>
            groups == (author, text)
  {
  }

  /** Groups that fill in author and text are author and text, within the limits. */
  lemma TextFilled(kind: MessageType, groups: (bytes, bytes), author: bytes, text: bytes)
    requires kind == MSG || kind == ERR
    ensures Filled(kind, groups) == Ok(BLANK.(kind := kind, author := author, text := text)) ==>
            groups == (author, text) && |author| <= MAX_AUTHOR && |text| <= MAX_TEXT
  {
  }

  lemma GroupsNonEmpty(s: bytes, pattern: string)
    ensures Groups(s, pattern).Some? ==> Groups(s, pattern).value.0 != [] && Groups(s, pattern).value.1 != []
  {
  }

  /**
   * MSG and ERR over TCP, in any spelling of the keyword and the separator: decoding the
   * line gives author and text back if and only if both are non-empty, within the limits
   * and without line breaks, and the text, with the separator's last space before it,
   * holds no further separator with something after it. Separators inside the author do
   * no harm.
   */
  lemma TextRead(order: seq<MessageType>, kind: MessageType, head: bytes, author: bytes, sep: bytes, text: bytes)
    requires IsOrder(order) && (kind == MSG || kind == ERR) && IsHead(kind, head) && Matches(" IS ", sep)
    ensures Decode(order, head + (author + sep + text) + TcpEncoder.CRLF) ==
              Ok(BLANK.(kind := kind, author := author, text := text)) <==>
            IsField(author, MAX_AUTHOR) && IsField(text, MAX_TEXT) && !LaterSeparator(" IS ", text)
  {
    var s := author + sep + text;
    var d := head + s + TcpEncoder.CRLF;
    WrittenShape(kind, head, s);
    SeparatorBytes(" IS ", sep);
    ThreeNoBreaks(author, sep, text);
    DecodedBy(order, d, kind);
    if IsField(author, MAX_AUTHOR) && IsField(text, MAX_TEXT) {
      SplitExact(author, " IS ", sep, text);
      DecodesShape(order, d, kind);
      FilledIs(kind, Shape(kind, d).value, author, text);
    } else if Shape(kind, d).Some? {
      GroupsNonEmpty(s, " IS ");
      TextFilled(kind, Shape(kind, d).value, author, text);
    }
  }

  lemma TextLine(m: Message, cfg: Config)
    requires m.kind == MSG || m.kind == ERR
    ensures TcpEncoder.Line(m, cfg) ==
            Ascii(Keyword(m.kind)) + (m.author + Ascii(" IS ") + m.text) + TcpEncoder.CRLF
  {
    var k, s := Ascii(Keyword(m.kind)), m.author + Ascii(" IS ") + m.text;
    assert k + m.author + (Ascii(" IS ") + m.text + TcpEncoder.CRLF) == k + s + TcpEncoder.CRLF;
  }

  lemma TextLineRead(order: seq<MessageType>, m: Message, cfg: Config)
    requires IsOrder(order) && (m.kind == MSG || m.kind == ERR)
    ensures Decode(order, TcpEncoder.Line(m, cfg)) ==
              Ok(BLANK.(kind := m.kind, author := m.author, text := m.text)) <==>
            IsText(m) && !LaterSeparator(" IS ", m.text)
  {
    PlainHead(m.kind);
    PlainSeparators();
    TextLine(m, cfg);
    TextRead(order, m.kind, Ascii(Keyword(m.kind)), m.author, Ascii(" IS "), m.text);
  }

  /** The same for whatever the encoder's loop returns, when neither field holds a placeholder. */
  lemma TextRoundTrip(order: seq<MessageType>, m: Message, cfg: Config, line: bytes)
    requires IsOrder(order) && (m.kind == MSG || m.kind == ERR)
    requires TcpEncoder.FieldsPlain(m, cfg) && TcpEncoder.Encodes(m, cfg, line)
    ensures Decode(order, line) == Ok(BLANK.(kind := m.kind, author := m.author, text := m.text)) <==>
            IsText(m) && !LaterSeparator(" IS ", m.text)
  {
    TcpEncoder.EncodesLine(m, cfg, line);
    TextLineRead(order, m, cfg);
  }

  // -------------------------------------------------------------------------- JOIN

  predicate IsJoin(m: Message, cfg: Config) {
    cfg.channel != [] && NoBreaks(cfg.channel) && IsField(m.author, MAX_AUTHOR)
  }

  /** If the second group is the whole of what was written second, so is the first. */
  lemma SecondGroup(a: bytes, pattern: string, sep: bytes, t: bytes)
    requires IsSeparator(pattern) && Matches(pattern, sep) && Groups(a + sep + t, pattern).Some?
    ensures var g := Groups(a + sep + t, pattern).value; g.1 == t ==> g.0 == a
  {
    var s := a + sep + t;
    SeparatorBytes(pattern, sep);
    var k := LastSplit(s, pattern, |s|).value;
    if s[k + 4..] == t {
      assert k == |a|;
      assert s[..k] == a;
    }
  }

  /**
   * JOIN over TCP, in any spelling: the display name comes back if and only if channel
   * and name are non-empty and without line breaks, the name is within the limit, and
   * the same condition on later separators holds. The channel is not kept.
   */
  lemma JoinRead(order: seq<MessageType>, head: bytes, channel: bytes, sep: bytes, author: bytes)
    requires IsOrder(order) && IsHead(JOIN, head) && Matches(" AS ", sep)
    ensures Decode(order, head + (channel + sep + author) + TcpEncoder.CRLF) ==
              Ok(BLANK.(kind := JOIN, author := author)) <==>
            channel != [] && NoBreaks(channel) && IsField(author, MAX_AUTHOR) && !LaterSeparator(" AS ", author)
  {
    var s := channel + sep + author;
    var d := head + s + TcpEncoder.CRLF;
    WrittenShape(JOIN, head, s);
    SeparatorBytes(" AS ", sep);
    ThreeNoBreaks(channel, sep, author);
    DecodedBy(order, d, JOIN);
    GroupsNonEmpty(s, " AS ");
    if channel != [] && NoBreaks(channel) && IsField(author, MAX_AUTHOR) {
      SplitExact(channel, " AS ", sep, author);
      SecondGroup(channel, " AS ", sep, author);
      DecodesShape(order, d, JOIN);
    } else if Groups(s, " AS ").Some? {
      SecondGroup(channel, " AS ", sep, author);
    }
  }

  lemma JoinLineRead(order: seq<MessageType>, m: Message, cfg: Config)
    requires IsOrder(order) && m.kind == JOIN
    ensures Decode(order, TcpEncoder.Line(m, cfg)) == Ok(BLANK.(kind := JOIN, author := m.author)) <==>
            IsJoin(m, cfg) && !LaterSeparator(" AS ", m.author)
  {
    var s := cfg.channel + Ascii(" AS ") + m.author;
    assert TcpEncoder.Line(m, cfg) == Ascii(Keyword(JOIN)) + s + TcpEncoder.CRLF;
    PlainHead(JOIN);
    PlainSeparators();
    JoinRead(order, Ascii(Keyword(JOIN)), cfg.channel, Ascii(" AS "), m.author);
  }

  lemma JoinRoundTrip(order: seq<MessageType>, m: Message, cfg: Config, line: bytes)
    requires IsOrder(order) && m.kind == JOIN
    requires TcpEncoder.FieldsPlain(m, cfg) && TcpEncoder.Encodes(m, cfg, line)
    ensures Decode(order, line) == Ok(BLANK.(kind := JOIN, author := m.author)) <==>
            IsJoin(m, cfg) && !LaterSeparator(" AS ", m.author)
  {
    TcpEncoder.EncodesLine(m, cfg, line);
    JoinLineRead(order, m, cfg);
  }

  // --------------------------------------------------------------------------- BYE

  /** BYE over TCP comes back if and only if its author is non-empty, within the limit and without line breaks. */
  lemma ByeRead(order: seq<MessageType>, head: bytes, author: bytes)
    requires IsOrder(order) && IsHead(BYE, head)
    ensures Decode(order, head + author + TcpEncoder.CRLF) == Ok(BLANK.(kind := BYE, author := author)) <==>
            IsField(author, MAX_AUTHOR)
  {
    var d := head + author + TcpEncoder.CRLF;
    WrittenShape(BYE, head, author);
    DecodedBy(order, d, BYE);
    if IsField(author, MAX_AUTHOR) { DecodesShape(order, d, BYE); }
  }

  lemma ByeRoundTrip(order: seq<MessageType>, m: Message, cfg: Config, line: bytes)
    requires IsOrder(order) && m.kind == BYE
    requires TcpEncoder.FieldsPlain(m, cfg) && TcpEncoder.Encodes(m, cfg, line)
    ensures Decode(order, line) == Ok(BLANK.(kind := BYE, author := m.author)) <==> IsField(m.author, MAX_AUTHOR)
  {
    TcpEncoder.EncodesLine(m, cfg, line);
    PlainHead(BYE);
    ByeRead(order, Ascii(Keyword(BYE)), m.author);
  }

  // -------------------------------------------------------------------------- AUTH

  /** A ` AS ` after the one that was written, with a match of `(.+) USING (.+)` after it. */
  predicate LaterAuthSeparator(t: bytes) {
    exists j: nat :: j <= |t| && LaterAuthAt(t, j)
  }

  predicate LaterAuthAt(t: bytes, j: nat) {
    OccursAt(" AS ", [32] + t, j) && Groups(([32] + t)[j + 4..], " USING ").Some?
  }

  lemma LaterAuthSplit(a: bytes, sep: bytes, t: bytes, j: nat)
    requires Matches(" AS ", sep)
    ensures AuthSplitsAt(a + sep + t, |a| + 3 + j) <==> LaterAuthAt(t, j)
  {
    var s, u := a + sep + t, [32] + t;
    SeparatorBytes(" AS ", sep);
    LaterSplit(a, " AS ", sep, t, j);
    assert s[|a| + 3..] == u;
    if j + 4 < |u| { assert s[|a| + 3 + j + 4..] == u[j + 4..]; }
  }

  lemma NoLaterAuthSplit(a: bytes, sep: bytes, t: bytes, k: nat)
    requires Matches(" AS ", sep) && !LaterAuthSeparator(t) && |a| < k
    ensures !AuthSplitsAt(a + sep + t, k)
  {
    if k < |a| + 3 { NoSplitInside(a, " AS ", sep, t, k - |a|); } else { LaterAuthSplit(a, sep, t, k - |a| - 3); }
  }

  lemma AuthSplitExact(a: bytes, sep: bytes, t: bytes)
    requires Matches(" AS ", sep) && a != [] && Groups(t, " USING ").Some?
    ensures var s := a + sep + t; var k := AuthSplit(s, |s|);
            k.Some? && (s[..k.value] == a <==> !LaterAuthSeparator(t))
  {
    var s := a + sep + t;
    SeparatorBytes(" AS ", sep);
    assert s[|a|..|a| + 4] == sep && s[|a| + 4..] == t;
    assert AuthSplitsAt(s, |a|);
    var k := AuthSplit(s, |s|).value;
    assert |a| <= k;
    if LaterAuthSeparator(t) {
      var j: nat :| j <= |t| && LaterAuthAt(t, j);
      LaterAuthSplit(a, sep, t, j);
      assert |s[..k]| != |a|;
    } else {
      if k > |a| { NoLaterAuthSplit(a, sep, t, k); }
      assert s[..|a|] == a;
    }
  }

  lemma UsingSplits(name: bytes, sep: bytes, secret: bytes)
    requires Matches(" USING ", sep) && name != [] && secret != []
    ensures Groups(name + sep + secret, " USING ").Some?
  {
    var s := name + sep + secret;
    assert s[|name|..|name| + 7] == sep;
    assert SplitsAt(s, " USING ", |name|);
  }

  lemma UsingNoBreaks(sep: bytes)
    requires Matches(" USING ", sep)
    ensures NoBreaks(sep)
  {
    var w := " USING ";
    forall i | 0 <= i < |sep| ensures sep[i] != 13 && sep[i] != 10 { assert Fits(w[i], sep[i]); }
  }

  /** What follows the user name splits at a ` USING `, and so it does if name and secret are not empty. */
  predicate SplitsSomewhere(rest: bytes) { exists k :: 0 <= k < |rest| && SplitsAt(rest, " USING ", k) }

  lemma RestSplits(author: bytes, sep: bytes, secret: bytes)
    requires Matches(" USING ", sep)
    ensures var rest := author + sep + secret;
            (Groups(rest, " USING ").Some? <==> SplitsSomewhere(rest)) &&
            (author != [] && secret != [] ==> SplitsSomewhere(rest))
  {
    if author != [] && secret != [] { UsingSplits(author, sep, secret); }
  }

  /** If the first group is the name that was written, the rest matched the rest. */
  lemma NameThenRest(name: bytes, sep: bytes, rest: bytes)
    requires Matches(" AS ", sep)
    ensures var s := name + sep + rest; var k := AuthSplit(s, |s|);
            k.Some? && s[..k.value] == name ==> name != [] && Groups(rest, " USING ").Some?
  {
    var s := name + sep + rest;
    SeparatorBytes(" AS ", sep);
    assert s[|name| + 4..] == rest;
  }

  /**
   * AUTH over TCP, in any spelling: the decoder reports the user name as the author, and
   * gets it right if and only if the name is non-empty and within the limit, no field
   * holds a line break, what follows the name splits at a ` USING `, and no later ` AS `
   * is followed by something that still does.
   */
  lemma AuthRead(order: seq<MessageType>, head: bytes, username: bytes, sep: bytes, author: bytes, using: bytes,
      secret: bytes)
    requires IsOrder(order) && IsHead(AUTH, head) && Matches(" AS ", sep) && Matches(" USING ", using)
    ensures var rest := author + using + secret;
            Decode(order, head + (username + sep + rest) + TcpEncoder.CRLF) ==
              Ok(BLANK.(kind := AUTH, author := username)) <==>
            IsField(username, MAX_AUTHOR) && NoBreaks(author) && NoBreaks(secret) && SplitsSomewhere(rest) &&
            !LaterAuthSeparator(rest)
  {
    var rest := author + using + secret;
    var s := username + sep + rest;
    var d := head + s + TcpEncoder.CRLF;
    WrittenShape(AUTH, head, s);
    SeparatorBytes(" AS ", sep);
    UsingNoBreaks(using);
    ThreeNoBreaks(author, using, secret);
    ThreeNoBreaks(username, sep, rest);
    RestSplits(author, using, secret);
    if IsField(username, MAX_AUTHOR) && NoBreaks(rest) && SplitsSomewhere(rest) {
      AuthSplitExact(username, sep, rest);
      DecodesShape(order, d, AUTH);
    } else {
      DecodedBy(order, d, AUTH);
      NameThenRest(username, sep, rest);
    }
  }

  predicate IsAuth(m: Message, cfg: Config) {
    && IsField(cfg.username, MAX_AUTHOR) && NoBreaks(m.author) && NoBreaks(cfg.secret)
    && SplitsSomewhere(m.author + Ascii(" USING ") + cfg.secret)
  }

  lemma AuthLine(m: Message, cfg: Config)
    requires m.kind == AUTH
    ensures var s := cfg.username + Ascii(" AS ") + (m.author + Ascii(" USING ") + cfg.secret);
            TcpEncoder.Line(m, cfg) == Ascii(Keyword(AUTH)) + s + TcpEncoder.CRLF
  {
    var rest := m.author + Ascii(" USING ") + cfg.secret;
    var head := Ascii(Keyword(AUTH)) + cfg.username;
    assert Ascii(" AS ") + m.author + (Ascii(" USING ") + cfg.secret + TcpEncoder.CRLF) ==
           Ascii(" AS ") + rest + TcpEncoder.CRLF;
    assert head + (Ascii(" AS ") + rest + TcpEncoder.CRLF) ==
           Ascii(Keyword(AUTH)) + (cfg.username + Ascii(" AS ") + rest) + TcpEncoder.CRLF;
  }

  lemma AuthLineRead(order: seq<MessageType>, m: Message, cfg: Config)
    requires IsOrder(order) && m.kind == AUTH
    ensures Decode(order, TcpEncoder.Line(m, cfg)) == Ok(BLANK.(kind := AUTH, author := cfg.username)) <==>
            IsAuth(m, cfg) && !LaterAuthSeparator(m.author + Ascii(" USING ") + cfg.secret)
  {
    AuthLine(m, cfg);
    PlainHead(AUTH);
    PlainSeparators();
    AuthRead(order, Ascii(Keyword(AUTH)), cfg.username, Ascii(" AS "), m.author, Ascii(" USING "), cfg.secret);
  }

  lemma AuthRoundTrip(order: seq<MessageType>, m: Message, cfg: Config, line: bytes)
    requires IsOrder(order) && m.kind == AUTH
    requires TcpEncoder.FieldsPlain(m, cfg) && TcpEncoder.Encodes(m, cfg, line)
    ensures Decode(order, line) == Ok(BLANK.(kind := AUTH, author := cfg.username)) <==>
            IsAuth(m, cfg) && !LaterAuthSeparator(m.author + Ascii(" USING ") + cfg.secret)
  {
    TcpEncoder.EncodesLine(m, cfg, line);
    AuthLineRead(order, m, cfg);
  }

  // ------------------------------------------------------------------------- REPLY

  /**
   * REPLY over TCP never comes back, whatever its text: the encoder has no value for the
   * result, writes `[UNKNOWN]`, and that fits no shape.
   */
  lemma ReplyLost(order: seq<MessageType>, m: Message, cfg: Config, line: bytes)
    requires m.kind == REPLY && TcpEncoder.Encodes(m, cfg, line)
    ensures Decode(order, line) == Ok(BLANK)
  {
    TcpEncoder.ReplyStart(m, cfg, line);
    UnknownBytes(line);
    forall kind ensures Shape(kind, line).None? { NoShape(kind, line); }
    DecodesNothing(order, line);
  }

  lemma UnknownBytes(line: bytes)
    requires Ascii("REPLY [UNKNOWN]") <= line
    ensures |line| > 6 && line[0] == 'R' as int && line[6] == '[' as int
  {
    var start := Ascii("REPLY [UNKNOWN]");
    assert line[0] == start[0] && line[6] == start[6];
  }

  lemma NoShape(kind: MessageType, d: bytes)
    requires |d| > 6 && d[0] == 'R' as int && d[6] == '[' as int
    ensures Shape(kind, d).None?
  {
    if Shape(kind, d).Some? { ShapeStart(kind, d); }
  }

  /** A line of a shape starts with the first letter of its keyword; a REPLY goes on with `OK` or `NOK`. */
  lemma ShapeStart(kind: MessageType, d: bytes)
    requires Shape(kind, d).Some?
    ensures d != [] && Keyword(kind) != "" && Fits(Keyword(kind)[0], d[0])
    ensures kind == REPLY ==> |d| > 6 && (Fits('O', d[6]) || Fits('N', d[6]))
  {
    var line := LineOf(d).value;
    FirstLetter(kind, line);
    assert line[0] == d[0];
    if kind == REPLY {
      var s := line[6..];
      assert s[0] == line[6] == d[6];
      assert s[..6][0] == s[0];
      assert |s| > 7 ==> s[..7][0] == s[0];
    }
  }

  /** A server's REPLY is read in any spelling; a bar in the status makes it negative. */
  lemma ReplyRead(order: seq<MessageType>, head: bytes, status: bytes, sep: bytes, text: bytes)
    requires IsOrder(order) && IsHead(REPLY, head) && Matches(" IS ", sep)
    requires Matches("OK", status) || Matches("NOK", status)
    ensures Decode(order, head + (status + sep + text) + TcpEncoder.CRLF) ==
              Ok(BLANK.(kind := REPLY, text := text, isOk := |status| == 2 && '|' as int !in status)) <==>
            IsField(text, MAX_TEXT)
  {
    var s := status + sep + text;
    var d := head + s + TcpEncoder.CRLF;
    WrittenShape(REPLY, head, s);
    SeparatorBytes(" IS ", sep);
    StatusBytes(status);
    ThreeNoBreaks(status, sep, text);
    ReplyGroupsRead(status, sep, text);
    DecodedBy(order, d, REPLY);
    if IsField(text, MAX_TEXT) { DecodesShape(order, d, REPLY); }
  }

  lemma StatusBytes(status: bytes)
    requires Matches("OK", status) || Matches("NOK", status)
    ensures NoBreaks(status) && (IsOk(status) <==> |status| == 2 && '|' as int !in status)
  {
  }

  lemma ReplyGroupsRead(status: bytes, sep: bytes, text: bytes)
    requires (Matches("OK", status) || Matches("NOK", status)) && Matches(" IS ", sep)
    ensures ReplyGroups(status + sep + text) == if text == [] then None else Some((status, text))
  {
    var s, n := status + sep + text, |status|;
    SeparatorBytes(" IS ", sep);
    assert s[..n] == status && s[n + 4..] == text;
    if text != [] {
      assert s[..n + 4] == status + sep;
      if n == 2 { assert Matches("OK IS ", s[..6]); } else { assert s[2] != 32 && Matches("NOK IS ", s[..7]); }
    } else if n == 3 {
      assert s[..6][2] == s[2] == status[2] != 32;
    }
  }

  // ----------------------------------------------------------------- lines of bars

  lemma BarsLine(start: bytes, s: bytes)
    requires NoBreaks(start) && NoBreaks(s)
    ensures var line := start + s;
            LineOf(line + TcpEncoder.CRLF) == Some(line) && line[..|start|] == start && line[|start|..] == s
  {
    JoinNoBreaks(start, s);
    LineEnds(start + s);
  }

  const THREE_BARS := Ascii("||| |||| ")

  lemma ThreeBars(s: bytes)
    ensures NoBreaks(THREE_BARS) && |THREE_BARS| == 9
    ensures StartsWith("MSG FROM ", THREE_BARS + s) && Bars(3, THREE_BARS + s) && (THREE_BARS + s)[9..] == s
  {
    assert Matches("MSG FROM ", THREE_BARS);
    assert (THREE_BARS + s)[..9] == THREE_BARS;
  }

  /** A line whose keyword is written in three bars can be an ERR and a MSG: the map's order decides. */
  lemma BarsAreAmbiguous(author: bytes, text: bytes)
    requires author != [] && |author| <= MAX_AUTHOR && NoBreaks(author)
    requires text != [] && NoBreaks(text) && !LaterSeparator(" IS ", text)
    ensures exists first, second ::
              OrdersDisagree(first, second, THREE_BARS + (author + Ascii(" IS ") + text) + TcpEncoder.CRLF)
  {
    var s := author + Ascii(" IS ") + text;
    PlainSeparators();
    SeparatorBytes(" IS ", Ascii(" IS "));
    SplitExact(author, " IS ", Ascii(" IS "), text);
    ThreeNoBreaks(author, Ascii(" IS "), text);
    ThreeBars(s);
    BarsLine(THREE_BARS, s);
    OrderMatters(THREE_BARS + s + TcpEncoder.CRLF);
  }

  /** With four bars it can be an AUTH and a JOIN, whatever the display name and the secret are. */
  lemma NameBarsAreAmbiguous(username: bytes, author: bytes, secret: bytes)
    requires username != [] && author != [] && secret != []
    requires NoBreaks(username) && NoBreaks(author) && NoBreaks(secret)
    requires |username| <= MAX_AUTHOR && !LaterAuthSeparator(author + Ascii(" USING ") + secret)
    ensures var rest := author + Ascii(" USING ") + secret;
            exists first, second ::
              OrdersDisagree(first, second, Ascii("|||| ") + (username + Ascii(" AS ") + rest) + TcpEncoder.CRLF)
  {
    var rest := author + Ascii(" USING ") + secret;
    var start, s := Ascii("|||| "), username + Ascii(" AS ") + rest;
    PlainSeparators();
    UsingSplits(author, Ascii(" USING "), secret);
    AuthSplitExact(username, Ascii(" AS "), rest);
    UsingNoBreaks(Ascii(" USING "));
    SeparatorBytes(" AS ", Ascii(" AS "));
    ThreeNoBreaks(author, Ascii(" USING "), secret);
    ThreeNoBreaks(username, Ascii(" AS "), rest);
    BarsLine(start, s);
    assert start[4] == 32 && Bars(4, start);
    assert NameBars(start + s);
    OrderMatters(start + s + TcpEncoder.CRLF);
  }
}
