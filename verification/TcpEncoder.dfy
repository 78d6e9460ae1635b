/**
 * The TCP encoder: replace the leftmost placeholder until there is none, against
 * replacing every placeholder of the format once.
 */
module TcpEncoder {
  import opened Bytes
  import opened Messages

  const LEFT: byte := '{' as int
  const RIGHT: byte := '}' as int

  /** `\w`. */
  predicate IsWord(b: byte) { IsAlnum(b) || b == '_' as int }

  /** The end of the run of word characters at `i`. */
  function WordEnd(s: bytes, i: nat): (e: nat)
    requires i <= |s|
    ensures i <= e <= |s|
    decreases |s| - i
  {
    if i < |s| && IsWord(s[i]) then WordEnd(s, i + 1) else i
  }

  predicate StartsPlaceholder(s: bytes, i: nat)
    requires i < |s|
  {
    var e := WordEnd(s, i + 1);
    s[i] == LEFT && i + 1 < e < |s| && s[e] == RIGHT
  }

  /** `regex_search` with `\{(\w+)\}`: where the leftmost match from `i` on starts, or the end. */
  function Find(s: bytes, i: nat): (k: nat)
    requires i <= |s|
    ensures i <= k <= |s|
    decreases |s| - i
  {
    if i == |s| || StartsPlaceholder(s, i) then i else Find(s, i + 1)
  }

  lemma {:induction false} FindStarts(s: bytes, i: nat)
    requires i <= |s|
    ensures Find(s, i) < |s| ==> StartsPlaceholder(s, Find(s, i))
    decreases |s| - i
  {
    if i < |s| && !StartsPlaceholder(s, i) { FindStarts(s, i + 1); }
  }

  predicate HasPlaceholder(s: bytes) { Find(s, 0) < |s| }

  const UNKNOWN := Ascii("[UNKNOWN]")

  function ValueOf(values: map<bytes, bytes>, key: bytes): bytes {
    if key in values then values[key] else UNKNOWN
  }

  /** The text before the leftmost placeholder, its value, and the text after it. */
  function Parts(s: bytes, values: map<bytes, bytes>): (p: (bytes, bytes, bytes))
    requires HasPlaceholder(s)
    ensures |p.2| < |s|
  {
    FindStarts(s, 0);
    var i := Find(s, 0);
    var e := WordEnd(s, i + 1);
    (s[..i], ValueOf(values, s[i + 1..e]), s[e + 1..])
  }

  /** One turn of the loop. */
  function Rewrite(s: bytes, values: map<bytes, bytes>): bytes
    requires HasPlaceholder(s)
  {
    var (before, value, after) := Parts(s, values);
    before + value + after
  }

  /** The result of the loop, if it ends within `n` turns. */
  function Loop(s: bytes, values: map<bytes, bytes>, n: nat): Option<bytes>
    decreases n
  {
    if !HasPlaceholder(s) then Some(s)
    else if n == 0 then None
    else Loop(Rewrite(s, values), values, n - 1)
  }

  /** The loop ends with this text. */
  ghost predicate Yields(s: bytes, values: map<bytes, bytes>, result: bytes) {
    exists n: nat :: Loop(s, values, n) == Some(result)
  }

  ghost predicate Halts(s: bytes, values: map<bytes, bytes>) {
    exists n: nat :: Loop(s, values, n).Some?
  }

  lemma {:induction false} LoopResult(s: bytes, values: map<bytes, bytes>, n: nat, k: nat)
    requires Loop(s, values, n).Some? && n <= k
    ensures Loop(s, values, k) == Loop(s, values, n)
    decreases n
  {
    if HasPlaceholder(s) {
      LoopResult(Rewrite(s, values), values, n - 1, k - 1);
    }
  }

  lemma {:induction false} LoopResultClean(s: bytes, values: map<bytes, bytes>, n: nat)
    requires Loop(s, values, n).Some?
    ensures !HasPlaceholder(Loop(s, values, n).value)
    decreases n
  {
    if HasPlaceholder(s) {
      LoopResultClean(Rewrite(s, values), values, n - 1);
    }
  }

  /** Replace every placeholder of the text once, scanning on after each. */
  function OnePass(s: bytes, values: map<bytes, bytes>): bytes
    decreases |s|
  {
    if !HasPlaceholder(s) then s
    else
      var (before, value, after) := Parts(s, values);
      before + value + OnePass(after, values)
  }

  /** A turn takes one step off the number of turns left. */
  lemma LoopTurn(s: bytes, values: map<bytes, bytes>, n: nat)
    requires HasPlaceholder(s) && Loop(s, values, n).Some?
    ensures n > 0 && Loop(Rewrite(s, values), values, n - 1) == Loop(s, values, n)
  {
  }

  lemma PartsAre(s: bytes, values: map<bytes, bytes>, i: nat, e: nat)
    requires HasPlaceholder(s) && i == Find(s, 0) && e == WordEnd(s, i + 1)
    ensures i + 1 <= e < |s| && Rewrite(s, values) == s[..i] + ValueOf(values, s[i + 1..e]) + s[e + 1..]
  {
    FindStarts(s, 0);
  }

  lemma YieldsIn(s: bytes, values: map<bytes, bytes>, n: nat, result: bytes)
    requires Loop(s, values, n) == Some(result)
    ensures Yields(s, values, result) && !HasPlaceholder(result)
  {
    LoopResultClean(s, values, n);
  }

  /** The loop ends with a text within a number of turns. */
  predicate EndsWith(s: bytes, values: map<bytes, bytes>, n: nat, result: bytes) {
    Loop(s, values, n) == Some(result)
  }

  lemma OneTurnLess(s: bytes, values: map<bytes, bytes>, n: nat, result: bytes)
    requires HasPlaceholder(s) && EndsWith(s, values, n, result)
    ensures n > 0 && EndsWith(Rewrite(s, values), values, n - 1, result)
  {
  }

  lemma NoTurnLeft(s: bytes, values: map<bytes, bytes>, n: nat, result: bytes)
    requires Find(s, 0) == |s| && EndsWith(s, values, n, result)
    ensures s == result
  {
  }

  /** The body of the loop, for the match found at `position`: one turn less is left. */
  method ReplaceMatch(s: bytes, position: nat, values: map<bytes, bytes>, ghost left: nat, ghost result: bytes)
    returns (r: bytes)
    requires position == Find(s, 0) < |s| && EndsWith(s, values, left, result)
    ensures left > 0 && EndsWith(r, values, left - 1, result)
  {
    FindStarts(s, 0);
    var end := WordEnd(s, position + 1);
    PartsAre(s, values, position, end);
    OneTurnLess(s, values, left, result);
    var key := s[position + 1..end];
    var replacement := if key in values then values[key] else UNKNOWN;
    r := s[..position] + replacement + s[end + 1..];
  }

  /** The loop itself, when it is known how it ends. */
  method ReplaceAll(format: bytes, values: map<bytes, bytes>, ghost turns: nat, ghost result: bytes)
    returns (encodedMessage: bytes)
    requires EndsWith(format, values, turns, result)
    ensures encodedMessage == result
  {
    encodedMessage := format;
    var position := Find(encodedMessage, 0);
    ghost var left := turns;
    while position < |encodedMessage|
      invariant position == Find(encodedMessage, 0) <= |encodedMessage|
      invariant EndsWith(encodedMessage, values, left, result)
      decreases left
    {
      encodedMessage := ReplaceMatch(encodedMessage, position, values, left, result);
      position := Find(encodedMessage, 0);
      left := left - 1;
    }
    NoTurnLeft(encodedMessage, values, left, result);
  }

  /** The loop of `encode`. Where the original would never return, it may not be called. */
  method Substitute(format: bytes, values: map<bytes, bytes>) returns (encodedMessage: bytes)
    requires Halts(format, values)
    ensures Yields(format, values, encodedMessage) && !HasPlaceholder(encodedMessage)
  {
    ghost var turns: nat :| Loop(format, values, turns).Some?;
    ghost var result := Loop(format, values, turns).value;
    YieldsIn(format, values, turns, result);
    encodedMessage := ReplaceAll(format, values, turns, result);
  }

  // --------------------------------------------- the loop and simultaneous substitution

  /** A placeholder, from its opening brace at `i` to its closing brace at `e`. */
  predicate IsPlaceholder(s: bytes, i: nat, e: nat) {
    i + 1 < e < |s| && s[i] == LEFT && s[e] == RIGHT && forall k :: i < k < e ==> IsWord(s[k])
  }

  lemma {:induction false} WordEndIs(s: bytes, i: nat, e: nat)
    requires i <= e < |s| && !IsWord(s[e]) && forall k :: i <= k < e ==> IsWord(s[k])
    ensures WordEnd(s, i) == e
    decreases e - i
  {
    if i < e { WordEndIs(s, i + 1, e); }
  }

  lemma {:induction false} WordsBefore(s: bytes, i: nat)
    requires i <= |s|
    ensures forall k :: i <= k < WordEnd(s, i) ==> IsWord(s[k])
    decreases |s| - i
  {
    if i < |s| && IsWord(s[i]) { WordsBefore(s, i + 1); }
  }

  lemma {:induction false} FindSkips(s: bytes, i: nat, j: nat)
    requires i <= j < |s| && StartsPlaceholder(s, j)
    ensures Find(s, i) <= j
    decreases j - i
  {
    if i < j && !StartsPlaceholder(s, i) { FindSkips(s, i + 1, j); }
  }

  lemma FindsPlaceholder(s: bytes, i: nat, e: nat)
    requires IsPlaceholder(s, i, e)
    ensures HasPlaceholder(s) && Find(s, 0) <= i && WordEnd(s, i + 1) == e
  {
    WordEndIs(s, i + 1, e);
    FindSkips(s, 0, i);
  }

  lemma PlaceholderFound(s: bytes) returns (i: nat, e: nat)
    requires HasPlaceholder(s)
    ensures IsPlaceholder(s, i, e) && i == Find(s, 0) && e == WordEnd(s, i + 1)
  {
    i := Find(s, 0);
    FindStarts(s, 0);
    e := WordEnd(s, i + 1);
    WordsBefore(s, i + 1);
  }

  lemma PlaceholderMoves(s: bytes, t: bytes, i: nat, e: nat)
    requires IsPlaceholder(s, i, e) && e < |t| && t[..e + 1] == s[..e + 1]
    ensures IsPlaceholder(t, i, e)
  {
    assert forall k :: i <= k <= e ==> t[k] == t[..e + 1][k] && s[k] == s[..e + 1][k];
  }

  lemma PlaceholderShifts(p: bytes, s: bytes, i: nat, e: nat)
    requires IsPlaceholder(s, i, e)
    ensures IsPlaceholder(p + s, |p| + i, |p| + e)
  {
    forall k | |p| + i < k < |p| + e ensures IsWord((p + s)[k]) { assert (p + s)[k] == s[k - |p|]; }
  }

  /** A placeholder that starts before a left brace ends before it, and shows in any text that begins alike. */
  lemma EndsBeforeBrace(t: bytes, j: nat, f: nat, at: nat, whole: bytes)
    requires IsPlaceholder(t, j, f) && j < at < |t| && t[at] == LEFT
    requires at <= |whole| && whole[..at] == t[..at]
    ensures HasPlaceholder(whole)
  {
    assert f < at;
    assert whole[..f + 1] == whole[..at][..f + 1] == t[..at][..f + 1] == t[..f + 1];
    PlaceholderMoves(t, whole, j, f);
    FindsPlaceholder(whole, j, f);
  }

  lemma LeftmostIs(t: bytes, i: nat, e: nat, whole: bytes)
    requires IsPlaceholder(t, i, e)
    requires i <= |whole| && whole[..i] == t[..i] && !HasPlaceholder(whole)
    ensures HasPlaceholder(t) && Find(t, 0) == i && WordEnd(t, i + 1) == e
  {
    FindsPlaceholder(t, i, e);
    var j, f := PlaceholderFound(t);
    if j < i { EndsBeforeBrace(t, j, f, i, whole); }
  }

  lemma PrefixedParts(p: bytes, s: bytes, i: nat, e: nat, rest: bytes)
    requires IsPlaceholder(s, i, e)
    ensures IsPlaceholder(p + s, |p| + i, |p| + e)
    ensures (p + s[..i] + rest)[..|p| + i] == (p + s)[..|p| + i]
  {
    PlaceholderShifts(p, s, i, e);
    assert (p + s[..i] + rest)[..|p| + i] == p + s[..i];
  }

  lemma SplitAfter(p: bytes, s: bytes, i: nat, e: nat)
    requires i < e < |s|
    ensures (p + s)[|p| + i + 1..|p| + e] == s[i + 1..e]
    ensures (p + s)[|p| + e + 1..] == s[e + 1..]
    ensures (p + s)[..|p| + i] == p + s[..i]
  {
  }

  lemma RegroupFour(a: bytes, b: bytes, c: bytes, d: bytes)
    ensures a + (b + c + d) == a + b + c + d == a + b + (c + d)
  {
  }

  /** One turn on a text whose leftmost placeholder is known. */
  lemma TurnAt(t: bytes, i: nat, e: nat, whole: bytes, values: map<bytes, bytes>)
    requires IsPlaceholder(t, i, e)
    requires i <= |whole| && whole[..i] == t[..i] && !HasPlaceholder(whole)
    ensures HasPlaceholder(t) && Rewrite(t, values) == t[..i] + ValueOf(values, t[i + 1..e]) + t[e + 1..]
  {
    LeftmostIs(t, i, e, whole);
    assert Parts(t, values) == (t[..i], ValueOf(values, t[i + 1..e]), t[e + 1..]);
  }

  /** The same with the three parts named. */
  lemma TurnOn(t: bytes, i: nat, e: nat, whole: bytes, values: map<bytes, bytes>, a: bytes, key: bytes, b: bytes)
    requires IsPlaceholder(t, i, e) && a == t[..i] && key == t[i + 1..e] && b == t[e + 1..]
    requires i <= |whole| && whole[..i] == t[..i] && !HasPlaceholder(whole)
    ensures HasPlaceholder(t) && Rewrite(t, values) == a + ValueOf(values, key) + b
  {
    TurnAt(t, i, e, whole, values);
  }

  lemma TurnAfter(p: bytes, s: bytes, i: nat, e: nat, rest: bytes, values: map<bytes, bytes>)
    requires IsPlaceholder(s, i, e) && !HasPlaceholder(p + s[..i] + rest)
    ensures HasPlaceholder(p + s)
    ensures Rewrite(p + s, values) == p + s[..i] + ValueOf(values, s[i + 1..e]) + s[e + 1..]
  {
    var t := p + s;
    PrefixedParts(p, s, i, e, rest);
    SplitAfter(p, s, i, e);
    TurnOn(t, |p| + i, |p| + e, p + s[..i] + rest, values, p + s[..i], s[i + 1..e], s[e + 1..]);
  }

  /** One turn after a placeholder-free prefix is one turn on the rest. */
  lemma RewriteAfter(p: bytes, s: bytes, values: map<bytes, bytes>)
    requires HasPlaceholder(s) && !HasPlaceholder(p + OnePass(s, values))
    ensures var (before, value, after) := Parts(s, values);
            HasPlaceholder(p + s) && Rewrite(p + s, values) == p + before + value + after &&
            p + OnePass(s, values) == p + before + value + OnePass(after, values)
  {
    var i, e := PlaceholderFound(s);
    var value, after := ValueOf(values, s[i + 1..e]), s[e + 1..];
    assert Parts(s, values) == (s[..i], value, after);
    var one := OnePass(after, values);
    assert OnePass(s, values) == s[..i] + value + one;
    RegroupFour(p, s[..i], value, one);
    TurnAfter(p, s, i, e, value + one, values);
  }

  lemma {:induction false} LoopIsOnePass(p: bytes, s: bytes, values: map<bytes, bytes>) returns (n: nat)
    requires !HasPlaceholder(p + OnePass(s, values))
    ensures Loop(p + s, values, n) == Some(p + OnePass(s, values))
    decreases |s|
  {
    n := 0;
    if HasPlaceholder(s) {
      var (before, value, after) := Parts(s, values);
      RewriteAfter(p, s, values);
      n := LoopIsOnePass(p + before + value, after, values);
      n := n + 1;
    }
  }

  /**
   * For every format and every value map: the loop ends with the simultaneous
   * substitution if and only if that substitution leaves no placeholder behind.
   */
  lemma SubstitutionExact(format: bytes, values: map<bytes, bytes>)
    ensures Yields(format, values, OnePass(format, values)) <==> !HasPlaceholder(OnePass(format, values))
  {
    if !HasPlaceholder(OnePass(format, values)) {
      assert [] + OnePass(format, values) == OnePass(format, values) && [] + format == format;
      var n := LoopIsOnePass([], format, values);
    }
    if n: nat :| Loop(format, values, n) == Some(OnePass(format, values)) {
      LoopResultClean(format, values, n);
    }
  }

  function Braces(s: bytes): nat { if s == [] then 0 else Braces(s[1..]) + if s[0] == LEFT then 1 else 0 }

  lemma {:induction false} BracesConcat(a: bytes, b: bytes)
    ensures Braces(a + b) == Braces(a) + Braces(b)
  {
    if a == [] {
      assert a + b == b;
    } else {
      assert (a + b)[1..] == a[1..] + b;
      BracesConcat(a[1..], b);
    }
  }

  lemma {:induction false} NoBraces(s: bytes)
    requires LEFT !in s
    ensures Braces(s) == 0
  {
    if s != [] { NoBraces(s[1..]); }
  }

  lemma BracesBetween(a: bytes, mid: bytes, b: bytes)
    requires mid != [] && mid[0] == LEFT
    ensures Braces(a) + Braces(b) < Braces(a + (mid + b))
  {
    BracesConcat(mid, b);
    BracesConcat(a, mid + b);
  }

  lemma Slices(s: bytes, i: nat, e: nat)
    requires i < e < |s|
    ensures s == s[..i] + (s[i..e + 1] + s[e + 1..])
  {
  }

  lemma BracesSplit(s: bytes, i: nat, e: nat)
    requires i < e < |s| && s[i] == LEFT
    ensures Braces(s[..i]) + Braces(s[e + 1..]) < Braces(s)
  {
    Slices(s, i, e);
    BracesBetween(s[..i], s[i..e + 1], s[e + 1..]);
  }

  /** Values without `{` take one brace away per turn. */
  lemma RewriteDropsBrace(s: bytes, values: map<bytes, bytes>)
    requires HasPlaceholder(s) && forall key :: key in values ==> LEFT !in values[key]
    ensures Braces(Rewrite(s, values)) < Braces(s)
  {
    var i, e := PlaceholderFound(s);
    var value := ValueOf(values, s[i + 1..e]);
    assert Parts(s, values) == (s[..i], value, s[e + 1..]);
    BracesSplit(s, i, e);
    NoBraces(value);
    BracesConcat(s[..i], value);
    BracesConcat(s[..i] + value, s[e + 1..]);
  }

  /** If no value contains `{` the loop ends, for every format, within as many turns as it has braces. */
  lemma {:induction false} BraceFreeHalts(s: bytes, values: map<bytes, bytes>)
    requires forall key :: key in values ==> LEFT !in values[key]
    ensures Loop(s, values, Braces(s)).Some?
    decreases Braces(s)
  {
    if HasPlaceholder(s) {
      RewriteDropsBrace(s, values);
      var next := Rewrite(s, values);
      BraceFreeHalts(next, values);
      LoopResult(next, values, Braces(next), Braces(s) - 1);
    }
  }

  lemma NoBraceNoPlaceholder(s: bytes)
    ensures HasPlaceholder(s) ==> LEFT in s
  {
    if HasPlaceholder(s) {
      var i, e := PlaceholderFound(s);
      assert s[i] in s;
    }
  }

  lemma LoneByte(b: byte)
    ensures !HasPlaceholder([b])
  {
    assert Find([b], 1) == 1;
  }

  lemma HoleAt(literal: bytes, key: bytes, rest: bytes)
    requires IsKey(key)
    ensures var s, i, e := literal + ([LEFT] + key + [RIGHT]) + rest, |literal|, |literal| + |key| + 1;
            IsPlaceholder(s, i, e) && s[..i] == literal == literal[..i] && s[i + 1..e] == key && s[e + 1..] == rest
  {
    var s, i, e := literal + ([LEFT] + key + [RIGHT]) + rest, |literal|, |literal| + |key| + 1;
    forall k | i < k < e ensures IsWord(s[k]) { assert s[k] == key[k - i - 1]; }
  }

  predicate IsKey(key: bytes) { key != [] && forall k :: 0 <= k < |key| ==> IsWord(key[k]) }

  /** A text without placeholders, a placeholder, and the rest. */
  lemma PassHole(literal: bytes, key: bytes, rest: bytes, values: map<bytes, bytes>)
    requires !HasPlaceholder(literal) && IsKey(key)
    ensures var s, value := literal + ([LEFT] + key + [RIGHT]) + rest, ValueOf(values, key);
            && HasPlaceholder(s) && Rewrite(s, values) == literal + value + rest
            && OnePass(s, values) == literal + value + OnePass(rest, values)
  {
    var s, i, e := literal + ([LEFT] + key + [RIGHT]) + rest, |literal|, |literal| + |key| + 1;
    HoleAt(literal, key, rest);
    LeftmostIs(s, i, e, literal);
    assert Parts(s, values) == (literal, ValueOf(values, key), rest);
  }

  /**
   * For arbitrary formats, values without `{` are not enough for the simultaneous
   * substitution: in `{{k}}` the value completes a new placeholder.
   */
  lemma BraceFreeIsNotEnough(key: bytes, value: bytes)
    requires IsKey(key) && IsKey(value) && LEFT !in value && key != value
    ensures var format, values := [LEFT] + ([LEFT] + key + [RIGHT]) + [RIGHT], map[key := value];
            OnePass(format, values) == [LEFT] + value + [RIGHT] && HasPlaceholder(OnePass(format, values)) &&
            Loop(format, values, 2) == Some(UNKNOWN)
  {
    var format, values := [LEFT] + ([LEFT] + key + [RIGHT]) + [RIGHT], map[key := value];
    var new_ := [LEFT] + value + [RIGHT];
    LoneByte(LEFT);
    LoneByte(RIGHT);
    PassHole([LEFT], key, [RIGHT], values);
    assert Rewrite(format, values) == new_;
    UnknownHole(value, values);
  }

  lemma RewriteHole(key: bytes, values: map<bytes, bytes>)
    requires IsKey(key)
    ensures var s := [LEFT] + key + [RIGHT]; HasPlaceholder(s) && Rewrite(s, values) == ValueOf(values, key)
  {
    var s := [LEFT] + key + [RIGHT];
    assert [] + s + [] == s && [] + ValueOf(values, key) + [] == ValueOf(values, key);
    LoneByte(RIGHT);
    PassHole([], key, [], values);
  }

  lemma OneTurn(s: bytes, t: bytes, values: map<bytes, bytes>)
    requires HasPlaceholder(s) && Rewrite(s, values) == t && !HasPlaceholder(t)
    ensures Loop(s, values, 1) == Some(t)
  {
  }

  lemma UnknownIsPlain()
    ensures !HasPlaceholder(UNKNOWN)
  {
    NoBraceNoPlaceholder(UNKNOWN);
  }

  lemma UnknownHole(key: bytes, values: map<bytes, bytes>)
    requires IsKey(key) && key !in values
    ensures HasPlaceholder([LEFT] + key + [RIGHT]) && Loop([LEFT] + key + [RIGHT], values, 1) == Some(UNKNOWN)
  {
    RewriteHole(key, values);
    UnknownIsPlain();
    OneTurn([LEFT] + key + [RIGHT], UNKNOWN, values);
  }

  // ------------------------------------------------------------- the shipped formats

  const CRLF: bytes := [13, 10]

  function Hole(name: string): bytes { [LEFT] + Ascii(name) + [RIGHT] }

  /** `tcpMessageFormats`. */
  function Format(kind: MessageType): Option<bytes> {
    match kind
    case ERR => Some(Ascii("ERR FROM ") + Hole("DisplayName") + (Ascii(" IS ") + Hole("MessageContent") + Hole("dl")))
    case REPLY => Some(Ascii("REPLY ") + Hole("Reply") + (Ascii(" IS ") + Hole("MessageContent") + Hole("dl")))
    case AUTH =>
      Some(Ascii("AUTH ") + Hole("Username") +
           (Ascii(" AS ") + Hole("DisplayName") + (Ascii(" USING ") + Hole("Secret") + Hole("dl"))))
    case JOIN => Some(Ascii("JOIN ") + Hole("ChannelID") + (Ascii(" AS ") + Hole("DisplayName") + Hole("dl")))
    case MSG => Some(Ascii("MSG FROM ") + Hole("DisplayName") + (Ascii(" IS ") + Hole("MessageContent") + Hole("dl")))
    case BYE => Some(Ascii("BYE FROM ") + Hole("DisplayName") + Hole("dl"))
    case _ => None
  }

  function Values(m: Message, cfg: Config): map<bytes, bytes> {
    map[
      Ascii("DisplayName") := m.author,
      Ascii("MessageContent") := m.text,
      Ascii("dl") := CRLF,
      Ascii("Username") := cfg.username,
      Ascii("Secret") := cfg.secret,
      Ascii("ChannelID") := cfg.channel
    ]
  }

  /** The line that each format describes. */
  function Line(m: Message, cfg: Config): bytes {
    match m.kind
    case ERR => Ascii("ERR FROM ") + m.author + (Ascii(" IS ") + m.text + CRLF)
    case REPLY => Ascii("REPLY ") + UNKNOWN + (Ascii(" IS ") + m.text + CRLF)
    case AUTH => Ascii("AUTH ") + cfg.username + (Ascii(" AS ") + m.author + (Ascii(" USING ") + cfg.secret + CRLF))
    case JOIN => Ascii("JOIN ") + cfg.channel + (Ascii(" AS ") + m.author + CRLF)
    case MSG => Ascii("MSG FROM ") + m.author + (Ascii(" IS ") + m.text + CRLF)
    case BYE => Ascii("BYE FROM ") + m.author + CRLF
    case _ => []
  }

  predicate Unbraced(s: string) { forall c :: c in s ==> 'A' <= c <= 'Z' || c == ' ' }

  lemma LetterNames()
    ensures Letters("DisplayName") && Letters("MessageContent") && Letters("dl") && Letters("Reply")
    ensures Letters("Username") && Letters("Secret") && Letters("ChannelID")
  {
  }

  lemma UnbracedLiterals()
    ensures Unbraced("ERR FROM ") && Unbraced("REPLY ") && Unbraced("MSG FROM ") && Unbraced("JOIN ")
    ensures Unbraced("AUTH ") && Unbraced("BYE FROM ") && Unbraced(" IS ") && Unbraced(" AS ") && Unbraced(" USING ")
  {
  }

  lemma UnbracedHasNoLeft(literal: string)
    requires Unbraced(literal)
    ensures LEFT !in Ascii(literal)
  {
    forall b | b in Ascii(literal) ensures b != LEFT {
      var i :| 0 <= i < |literal| && Ascii(literal)[i] == b;
      assert literal[i] in literal;
    }
  }

  lemma UnbracedIsPlain(literal: string)
    requires Unbraced(literal)
    ensures !HasPlaceholder(Ascii(literal))
  {
    UnbracedHasNoLeft(literal);
    NoBraceNoPlaceholder(Ascii(literal));
  }

  /** The same for names and literals of the shipped formats, when the rest is known. */
  lemma PassNamed(literal: string, name: string, rest: bytes, out: bytes, values: map<bytes, bytes>)
    requires Unbraced(literal) && Letters(name) && OnePass(rest, values) == out
    ensures OnePass(Ascii(literal) + Hole(name) + rest, values) == Ascii(literal) + ValueOf(values, Ascii(name)) + out
  {
    UnbracedIsPlain(literal);
    PassHole(Ascii(literal), Ascii(name), rest, values);
  }

  lemma Lookups(m: Message, cfg: Config)
    ensures var v := Values(m, cfg);
            && ValueOf(v, Ascii("DisplayName")) == m.author
            && ValueOf(v, Ascii("MessageContent")) == m.text
            && ValueOf(v, Ascii("dl")) == CRLF
            && ValueOf(v, Ascii("Username")) == cfg.username
            && ValueOf(v, Ascii("Secret")) == cfg.secret
            && ValueOf(v, Ascii("ChannelID")) == cfg.channel
            && ValueOf(v, Ascii("Reply")) == UNKNOWN
  {
  }

  lemma PassEnd(values: map<bytes, bytes>)
    requires ValueOf(values, Ascii("dl")) == CRLF
    ensures OnePass(Hole("dl"), values) == CRLF
  {
    PassNamed("", "dl", [], [], values);
    assert Ascii("") + Hole("dl") + [] == Hole("dl");
    assert Ascii("") + CRLF + [] == CRLF;
  }

  /** ` IS ` and its text, ` AS ` and its name, or ` USING ` and the secret: the last hole before the line end. */
  lemma PassLast(literal: string, name: string, value: bytes, v: map<bytes, bytes>)
    requires Unbraced(literal) && Letters(name)
    requires ValueOf(v, Ascii("dl")) == CRLF && ValueOf(v, Ascii(name)) == value
    ensures OnePass(Ascii(literal) + Hole(name) + Hole("dl"), v) == Ascii(literal) + value + CRLF
  {
    PassEnd(v);
    PassNamed(literal, name, Hole("dl"), CRLF, v);
  }

  lemma PassTwo(first: string, name: string, second: string, last: string, a: bytes, b: bytes, v: map<bytes, bytes>)
    requires Unbraced(first) && Letters(name) && Unbraced(second) && Letters(last)
    requires ValueOf(v, Ascii("dl")) == CRLF && ValueOf(v, Ascii(name)) == a && ValueOf(v, Ascii(last)) == b
    ensures OnePass(Ascii(first) + Hole(name) + (Ascii(second) + Hole(last) + Hole("dl")), v) ==
            Ascii(first) + a + (Ascii(second) + b + CRLF)
  {
    PassLast(second, last, b, v);
    PassNamed(first, name, Ascii(second) + Hole(last) + Hole("dl"), Ascii(second) + b + CRLF, v);
  }

  lemma PassAuth(user: bytes, author: bytes, secret: bytes, v: map<bytes, bytes>)
    requires ValueOf(v, Ascii("dl")) == CRLF && ValueOf(v, Ascii("Username")) == user
    requires ValueOf(v, Ascii("DisplayName")) == author && ValueOf(v, Ascii("Secret")) == secret
    ensures OnePass(Format(AUTH).value, v) ==
            Ascii("AUTH ") + user + (Ascii(" AS ") + author + (Ascii(" USING ") + secret + CRLF))
  {
    LetterNames();
    UnbracedLiterals();
    PassTwo(" AS ", "DisplayName", " USING ", "Secret", author, secret, v);
    PassNamed("AUTH ", "Username",
              Ascii(" AS ") + Hole("DisplayName") + (Ascii(" USING ") + Hole("Secret") + Hole("dl")),
              Ascii(" AS ") + author + (Ascii(" USING ") + secret + CRLF), v);
  }

  /** Substituting once gives the described line. */
  lemma OnePassIsLine(m: Message, cfg: Config)
    requires Format(m.kind).Some?
    ensures OnePass(Format(m.kind).value, Values(m, cfg)) == Line(m, cfg)
  {
    Lookups(m, cfg);
    PassLine(m, cfg, Values(m, cfg));
  }

  lemma PassLine(m: Message, cfg: Config, v: map<bytes, bytes>)
    requires Format(m.kind).Some? && ValueOf(v, Ascii("dl")) == CRLF && ValueOf(v, Ascii("Reply")) == UNKNOWN
    requires ValueOf(v, Ascii("DisplayName")) == m.author && ValueOf(v, Ascii("MessageContent")) == m.text
    requires ValueOf(v, Ascii("Username")) == cfg.username && ValueOf(v, Ascii("Secret")) == cfg.secret
    requires ValueOf(v, Ascii("ChannelID")) == cfg.channel
    ensures OnePass(Format(m.kind).value, v) == Line(m, cfg)
  {
    LetterNames();
    UnbracedLiterals();
    match m.kind
    case ERR => PassTwo("ERR FROM ", "DisplayName", " IS ", "MessageContent", m.author, m.text, v);
    case REPLY => PassTwo("REPLY ", "Reply", " IS ", "MessageContent", UNKNOWN, m.text, v);
    case MSG => PassTwo("MSG FROM ", "DisplayName", " IS ", "MessageContent", m.author, m.text, v);
    case JOIN => PassTwo("JOIN ", "ChannelID", " AS ", "DisplayName", cfg.channel, m.author, v);
    case AUTH => PassAuth(cfg.username, m.author, cfg.secret, v);
    case BYE => PassLast("BYE FROM ", "DisplayName", m.author, v);
  }

  /** A byte that no placeholder contains separates the placeholders of its two sides. */
  lemma Separated(a: bytes, c: byte, b: bytes)
    requires c != LEFT && c != RIGHT && !IsWord(c)
    ensures HasPlaceholder(a + [c] + b) <==> HasPlaceholder(a) || HasPlaceholder(b)
  {
    var s := a + [c] + b;
    if HasPlaceholder(s) {
      var i, e := PlaceholderFound(s);
      assert s[|a|] == c;
      if e < |a| {
        assert a[..e + 1] == s[..e + 1];
        PlaceholderMoves(s, a, i, e);
        FindsPlaceholder(a, i, e);
      } else {
        assert i > |a|;
        PlaceholderUnshifts(a + [c], b, i, e);
        FindsPlaceholder(b, i - |a| - 1, e - |a| - 1);
      }
    }
    if HasPlaceholder(a) {
      var i, e := PlaceholderFound(a);
      assert a[..e + 1] == s[..e + 1];
      PlaceholderMoves(a, s, i, e);
      FindsPlaceholder(s, i, e);
    }
    if HasPlaceholder(b) {
      var i, e := PlaceholderFound(b);
      PlaceholderShifts(a + [c], b, i, e);
      FindsPlaceholder(s, |a| + 1 + i, |a| + 1 + e);
    }
  }

  lemma PlaceholderUnshifts(p: bytes, s: bytes, i: nat, e: nat)
    requires |p| <= i && IsPlaceholder(p + s, i, e)
    ensures IsPlaceholder(s, i - |p|, e - |p|)
  {
    forall k | i - |p| < k < e - |p| ensures IsWord(s[k]) { assert (p + s)[k + |p|] == s[k]; }
  }

  /** What the encoder's loop returns for a message of an encodable type, if it ends. */
  ghost predicate Encodes(m: Message, cfg: Config, line: bytes)
    requires Format(m.kind).Some?
  {
    Yields(Format(m.kind).value, Values(m, cfg), line)
  }

  /** The words of a line: keywords and inserted fields. */
  function LineParts(m: Message, cfg: Config): seq<bytes> {
    match m.kind
    case ERR => [Ascii("ERR"), Ascii("FROM"), m.author, Ascii("IS"), m.text]
    case REPLY => [Ascii("REPLY"), UNKNOWN, Ascii("IS"), m.text]
    case AUTH => [Ascii("AUTH"), cfg.username, Ascii("AS"), m.author, Ascii("USING"), cfg.secret]
    case JOIN => [Ascii("JOIN"), cfg.channel, Ascii("AS"), m.author]
    case MSG => [Ascii("MSG"), Ascii("FROM"), m.author, Ascii("IS"), m.text]
    case BYE => [Ascii("BYE"), Ascii("FROM"), m.author]
    case _ => []
  }

  /** Separated by spaces and ended by the delimiter. */
  function Spaced(parts: seq<bytes>): bytes {
    if parts == [] then [] else if |parts| == 1 then parts[0] + [13] + [10] else parts[0] + [32] + Spaced(parts[1..])
  }

  predicate AnyPlaceholder(parts: seq<bytes>) { exists i :: 0 <= i < |parts| && HasPlaceholder(parts[i]) }

  lemma AnyPlaceholderCons(parts: seq<bytes>)
    requires parts != []
    ensures AnyPlaceholder(parts) <==> HasPlaceholder(parts[0]) || AnyPlaceholder(parts[1..])
  {
    if i :| 0 <= i < |parts| && HasPlaceholder(parts[i]) {
      if i > 0 { assert parts[1..][i - 1] == parts[i]; }
    }
    if i :| 0 <= i < |parts[1..]| && HasPlaceholder(parts[1..][i]) { assert parts[i + 1] == parts[1..][i]; }
  }

  /** Spaces and line ends keep the parts of a line apart. */
  lemma {:induction false} SpacedPlaceholders(parts: seq<bytes>)
    requires parts != []
    ensures HasPlaceholder(Spaced(parts)) <==> AnyPlaceholder(parts)
    decreases |parts|
  {
    AnyPlaceholderCons(parts);
    if |parts| == 1 {
      LoneByte(10);
      Separated(parts[0], 13, [10]);
    } else {
      SpacedPlaceholders(parts[1..]);
      Separated(parts[0], 32, Spaced(parts[1..]));
    }
  }

  lemma SpacedCons(part: bytes, rest: seq<bytes>)
    requires rest != []
    ensures Spaced([part] + rest) == part + [32] + Spaced(rest)
  {
    assert ([part] + rest)[1..] == rest;
  }

  /** A keyword between two fields, with its spaces. */
  lemma SpacedBetween(a: bytes, keyword: bytes, b: bytes)
    ensures Spaced([a, keyword, b]) == a + ([32] + keyword + [32] + b + CRLF)
  {
    SpacedCons(keyword, [b]);
    SpacedCons(a, [keyword, b]);
    assert [a] + [keyword, b] == [a, keyword, b] && [keyword] + [b] == [keyword, b];
  }

  lemma SpacedText(head: bytes, from_: bytes, a: bytes, is_: bytes, b: bytes)
    ensures Spaced([head, from_, a, is_, b]) == head + [32] + from_ + [32] + a + ([32] + is_ + [32] + b + CRLF)
  {
    SpacedBetween(a, is_, b);
    SpacedCons(from_, [a, is_, b]);
    SpacedCons(head, [from_, a, is_, b]);
    assert [head] + [from_, a, is_, b] == [head, from_, a, is_, b] && [from_] + [a, is_, b] == [from_, a, is_, b];
  }

  lemma SpacedPair(head: bytes, a: bytes, is_: bytes, b: bytes)
    ensures Spaced([head, a, is_, b]) == head + [32] + a + ([32] + is_ + [32] + b + CRLF)
  {
    SpacedBetween(a, is_, b);
    SpacedCons(head, [a, is_, b]);
    assert [head] + [a, is_, b] == [head, a, is_, b];
  }

  lemma SpacedTriple(head: bytes, a: bytes, as_: bytes, b: bytes, using_: bytes, s: bytes)
    ensures Spaced([head, a, as_, b, using_, s]) ==
            head + [32] + a + ([32] + as_ + [32] + b + ([32] + using_ + [32] + s + CRLF))
  {
    SpacedBetween(b, using_, s);
    SpacedCons(as_, [b, using_, s]);
    SpacedCons(a, [as_, b, using_, s]);
    SpacedCons(head, [a, as_, b, using_, s]);
    assert [as_] + [b, using_, s] == [as_, b, using_, s];
    assert [a] + [as_, b, using_, s] == [a, as_, b, using_, s];
    assert [head] + [a, as_, b, using_, s] == [head, a, as_, b, using_, s];
  }

  lemma SpacedBye(head: bytes, from_: bytes, a: bytes)
    ensures Spaced([head, from_, a]) == head + [32] + from_ + [32] + a + CRLF
  {
    SpacedBetween(head, from_, a);
  }

  lemma FromParts(head: string)
    ensures Ascii(head + " FROM ") == Ascii(head) + [32] + Ascii("FROM") + [32]
  {
  }

  lemma HeadParts(head: string)
    ensures Ascii(head + " ") == Ascii(head) + [32]
  {
  }

  lemma MiddleParts(middle: string)
    ensures Ascii(" " + middle + " ") == [32] + Ascii(middle) + [32]
  {
  }

  /** The literals of the formats, taken apart at their spaces. */
  lemma LiteralParts()
    ensures Ascii("ERR FROM ") == Ascii("ERR") + [32] + Ascii("FROM") + [32]
    ensures Ascii("MSG FROM ") == Ascii("MSG") + [32] + Ascii("FROM") + [32]
    ensures Ascii("BYE FROM ") == Ascii("BYE") + [32] + Ascii("FROM") + [32]
    ensures Ascii("REPLY ") == Ascii("REPLY") + [32] && Ascii("JOIN ") == Ascii("JOIN") + [32]
    ensures Ascii("AUTH ") == Ascii("AUTH") + [32] && Ascii(" USING ") == [32] + Ascii("USING") + [32]
    ensures Ascii(" IS ") == [32] + Ascii("IS") + [32] && Ascii(" AS ") == [32] + Ascii("AS") + [32]
  {
    assert "ERR FROM " == "ERR" + " FROM " && "MSG FROM " == "MSG" + " FROM " && "BYE FROM " == "BYE" + " FROM ";
    assert "REPLY " == "REPLY" + " " && "JOIN " == "JOIN" + " " && "AUTH " == "AUTH" + " ";
    assert " USING " == " " + "USING" + " " && " IS " == " " + "IS" + " " && " AS " == " " + "AS" + " ";
    FromParts("ERR");
    FromParts("MSG");
    FromParts("BYE");
    HeadParts("REPLY");
    HeadParts("JOIN");
    HeadParts("AUTH");
    MiddleParts("USING");
    MiddleParts("IS");
    MiddleParts("AS");
  }

  lemma LineIsSpaced(m: Message, cfg: Config)
    requires Format(m.kind).Some?
    ensures Line(m, cfg) == Spaced(LineParts(m, cfg))
  {
    LiteralParts();
    match m.kind
    case ERR => SpacedText(Ascii("ERR"), Ascii("FROM"), m.author, Ascii("IS"), m.text);
    case REPLY => SpacedPair(Ascii("REPLY"), UNKNOWN, Ascii("IS"), m.text);
    case AUTH => SpacedTriple(Ascii("AUTH"), cfg.username, Ascii("AS"), m.author, Ascii("USING"), cfg.secret);
    case JOIN => SpacedPair(Ascii("JOIN"), cfg.channel, Ascii("AS"), m.author);
    case MSG => SpacedText(Ascii("MSG"), Ascii("FROM"), m.author, Ascii("IS"), m.text);
    case BYE => SpacedBye(Ascii("BYE"), Ascii("FROM"), m.author);
  }

  /** No field that goes into the line holds a placeholder. */
  predicate FieldsPlain(m: Message, cfg: Config) {
    match m.kind
    case ERR => !HasPlaceholder(m.author) && !HasPlaceholder(m.text)
    case REPLY => !HasPlaceholder(m.text)
    case AUTH => !HasPlaceholder(cfg.username) && !HasPlaceholder(m.author) && !HasPlaceholder(cfg.secret)
    case JOIN => !HasPlaceholder(cfg.channel) && !HasPlaceholder(m.author)
    case MSG => !HasPlaceholder(m.author) && !HasPlaceholder(m.text)
    case BYE => !HasPlaceholder(m.author)
    case _ => true
  }

  lemma KeywordsPlain()
    ensures !HasPlaceholder(Ascii("ERR")) && !HasPlaceholder(Ascii("REPLY")) && !HasPlaceholder(Ascii("AUTH"))
    ensures !HasPlaceholder(Ascii("JOIN")) && !HasPlaceholder(Ascii("MSG")) && !HasPlaceholder(Ascii("BYE"))
    ensures !HasPlaceholder(Ascii("FROM")) && !HasPlaceholder(Ascii("IS")) && !HasPlaceholder(Ascii("AS"))
    ensures !HasPlaceholder(Ascii("USING")) && !HasPlaceholder(UNKNOWN)
  {
    UnknownIsPlain();
    UnbracedKeywords();
    UnbracedIsPlain("ERR");
    UnbracedIsPlain("REPLY");
    UnbracedIsPlain("AUTH");
    UnbracedIsPlain("JOIN");
    UnbracedIsPlain("MSG");
    UnbracedIsPlain("BYE");
    UnbracedIsPlain("FROM");
    UnbracedIsPlain("IS");
    UnbracedIsPlain("AS");
    UnbracedIsPlain("USING");
  }

  lemma UnbracedKeywords()
    ensures Unbraced("ERR") && Unbraced("REPLY") && Unbraced("AUTH") && Unbraced("JOIN") && Unbraced("MSG")
    ensures Unbraced("BYE") && Unbraced("FROM") && Unbraced("IS") && Unbraced("AS") && Unbraced("USING")
  {
  }

  lemma AnyOfThree(a: bytes, b: bytes, c: bytes)
    ensures AnyPlaceholder([a, b, c]) <==> HasPlaceholder(a) || HasPlaceholder(b) || HasPlaceholder(c)
  {
    var parts := [a, b, c];
    assert parts[0] == a && parts[1] == b && parts[2] == c;
  }

  lemma AnyOfMore(a: bytes, rest: seq<bytes>)
    ensures AnyPlaceholder([a] + rest) <==> HasPlaceholder(a) || AnyPlaceholder(rest)
  {
    AnyPlaceholderCons([a] + rest);
    assert ([a] + rest)[1..] == rest;
  }

  lemma AnyOfFour(a: bytes, b: bytes, c: bytes, d: bytes)
    ensures AnyPlaceholder([a, b, c, d]) <==>
            HasPlaceholder(a) || HasPlaceholder(b) || HasPlaceholder(c) || HasPlaceholder(d)
  {
    AnyOfThree(b, c, d);
    AnyOfMore(a, [b, c, d]);
    assert [a] + [b, c, d] == [a, b, c, d];
  }

  lemma AnyOfFive(a: bytes, b: bytes, c: bytes, d: bytes, e: bytes)
    ensures AnyPlaceholder([a, b, c, d, e]) <==>
            HasPlaceholder(a) || HasPlaceholder(b) || HasPlaceholder(c) || HasPlaceholder(d) || HasPlaceholder(e)
  {
    AnyOfFour(b, c, d, e);
    AnyOfMore(a, [b, c, d, e]);
    assert [a] + [b, c, d, e] == [a, b, c, d, e];
  }

  lemma AnyOfSix(a: bytes, b: bytes, c: bytes, d: bytes, e: bytes, f: bytes)
    ensures AnyPlaceholder([a, b, c, d, e, f]) <==>
            HasPlaceholder(a) || HasPlaceholder(b) || HasPlaceholder(c) || HasPlaceholder(d) || HasPlaceholder(e) ||
            HasPlaceholder(f)
  {
    AnyOfFive(b, c, d, e, f);
    AnyOfMore(a, [b, c, d, e, f]);
    assert [a] + [b, c, d, e, f] == [a, b, c, d, e, f];
  }

  lemma PartsPlain(m: Message, cfg: Config)
    requires Format(m.kind).Some?
    ensures AnyPlaceholder(LineParts(m, cfg)) <==> !FieldsPlain(m, cfg)
  {
    KeywordsPlain();
    match m.kind
    case ERR => AnyOfFive(Ascii("ERR"), Ascii("FROM"), m.author, Ascii("IS"), m.text);
    case REPLY => AnyOfFour(Ascii("REPLY"), UNKNOWN, Ascii("IS"), m.text);
    case AUTH => AnyOfSix(Ascii("AUTH"), cfg.username, Ascii("AS"), m.author, Ascii("USING"), cfg.secret);
    case JOIN => AnyOfFour(Ascii("JOIN"), cfg.channel, Ascii("AS"), m.author);
    case MSG => AnyOfFive(Ascii("MSG"), Ascii("FROM"), m.author, Ascii("IS"), m.text);
    case BYE => AnyOfThree(Ascii("BYE"), Ascii("FROM"), m.author);
  }

  lemma LinePlain(m: Message, cfg: Config)
    requires Format(m.kind).Some?
    ensures HasPlaceholder(Line(m, cfg)) <==> !FieldsPlain(m, cfg)
  {
    LineIsSpaced(m, cfg);
    PartsPlain(m, cfg);
    SpacedPlaceholders(LineParts(m, cfg));
  }

  lemma EndsWithPass(format: bytes, values: map<bytes, bytes>, result: bytes)
    requires OnePass(format, values) == result
    ensures Yields(format, values, result) <==> !HasPlaceholder(result)
  {
    SubstitutionExact(format, values);
  }

  lemma LineExactFor(m: Message, cfg: Config, format: bytes, values: map<bytes, bytes>)
    requires OnePass(format, values) == Line(m, cfg) && (HasPlaceholder(Line(m, cfg)) <==> !FieldsPlain(m, cfg))
    ensures Yields(format, values, Line(m, cfg)) <==> FieldsPlain(m, cfg)
  {
    EndsWithPass(format, values, Line(m, cfg));
  }

  /**
   * For every shipped format, the loop ends with the described line if and only if no
   * field that goes into it holds a placeholder.
   */
  lemma LineExact(m: Message, cfg: Config)
    requires Format(m.kind).Some?
    ensures Encodes(m, cfg, Line(m, cfg)) <==> FieldsPlain(m, cfg)
  {
    OnePassIsLine(m, cfg);
    LinePlain(m, cfg);
    LineExactFor(m, cfg, Format(m.kind).value, Values(m, cfg));
  }

  /** A value that is its own placeholder puts the text back as it was. */
  lemma OwnPlaceholder(literal: bytes, key: bytes, rest: bytes, values: map<bytes, bytes>)
    requires !HasPlaceholder(literal) && IsKey(key) && ValueOf(values, key) == [LEFT] + key + [RIGHT]
    ensures var s := literal + ([LEFT] + key + [RIGHT]) + rest; HasPlaceholder(s) && Rewrite(s, values) == s
  {
    PassHole(literal, key, rest, values);
  }

  lemma OwnNameForever(literal: string, name: string, rest: bytes, values: map<bytes, bytes>, n: nat)
    requires Unbraced(literal) && Letters(name) && ValueOf(values, Ascii(name)) == Hole(name)
    ensures Loop(Ascii(literal) + Hole(name) + rest, values, n) == None
  {
    UnbracedIsPlain(literal);
    OwnPlaceholder(Ascii(literal), Ascii(name), rest, values);
    LoopsForever(Ascii(literal) + Hole(name) + rest, values, n);
  }

  lemma {:induction false} LoopsForever(s: bytes, values: map<bytes, bytes>, n: nat)
    requires HasPlaceholder(s) && Rewrite(s, values) == s
    ensures Loop(s, values, n) == None
  {
    if n > 0 { LoopsForever(s, values, n - 1); }
  }

  /** A display name that is its own placeholder keeps the loop going forever. */
  lemma NeverEnds(m: Message, cfg: Config, n: nat)
    requires m.kind == BYE && m.author == Hole("DisplayName")
    ensures Loop(Format(BYE).value, Values(m, cfg), n) == None
  {
    Lookups(m, cfg);
    LetterNames();
    UnbracedLiterals();
    OwnNameForever("BYE FROM ", "DisplayName", Hole("dl"), Values(m, cfg), n);
  }

  lemma YieldsOnce(s: bytes, values: map<bytes, bytes>, x: bytes, y: bytes)
    requires Yields(s, values, x) && Yields(s, values, y)
    ensures x == y
  {
    var a: nat :| Loop(s, values, a) == Some(x);
    var b: nat :| Loop(s, values, b) == Some(y);
    LoopResult(s, values, a, a + b);
    LoopResult(s, values, b, a + b);
  }

  /** Without placeholders in the fields, the loop returns nothing but the described line. */
  lemma EncodesLine(m: Message, cfg: Config, line: bytes)
    requires Format(m.kind).Some? && FieldsPlain(m, cfg) && Encodes(m, cfg, line)
    ensures line == Line(m, cfg)
  {
    LineExact(m, cfg);
    YieldsOnce(Format(m.kind).value, Values(m, cfg), line, Line(m, cfg));
  }

  lemma LineReached(m: Message, cfg: Config)
    requires Format(m.kind).Some? && !HasPlaceholder(Line(m, cfg))
    ensures Encodes(m, cfg, Line(m, cfg))
  {
    OnePassIsLine(m, cfg);
    EndsWithPass(Format(m.kind).value, Values(m, cfg), Line(m, cfg));
  }

  // -------------------------------------------------------------- the start of a line

  lemma BraceAfter(prefix: bytes, s: bytes, i: nat)
    requires LEFT !in prefix && i < |prefix + s| && (prefix + s)[i] == LEFT
    ensures |prefix| <= i
  {
    forall k | 0 <= k < |prefix| ensures (prefix + s)[k] != LEFT { assert prefix[k] in prefix; }
  }

  /** A turn leaves the text before the first brace alone. */
  lemma RewriteKeepsPrefix(prefix: bytes, s: bytes, values: map<bytes, bytes>) returns (t: bytes)
    requires LEFT !in prefix && HasPlaceholder(prefix + s)
    ensures Rewrite(prefix + s, values) == prefix + t
  {
    var i, e := PlaceholderFound(prefix + s);
    PartsAre(prefix + s, values, i, e);
    BraceAfter(prefix, s, i);
    var value, after := ValueOf(values, (prefix + s)[i + 1..e]), (prefix + s)[e + 1..];
    t := s[..i - |prefix|] + value + after;
    assert (prefix + s)[..i] == prefix + s[..i - |prefix|];
    RegroupFour(prefix, s[..i - |prefix|], value, after);
    assert prefix + (s[..i - |prefix|] + value + after) == prefix + s[..i - |prefix|] + value + after;
  }

  lemma {:induction false} LoopKeepsPrefix(prefix: bytes, s: bytes, values: map<bytes, bytes>, n: nat)
    requires LEFT !in prefix && Loop(prefix + s, values, n).Some?
    ensures prefix <= Loop(prefix + s, values, n).value
    decreases n
  {
    if HasPlaceholder(prefix + s) {
      var t := RewriteKeepsPrefix(prefix, s, values);
      LoopKeepsPrefix(prefix, t, values, n - 1);
    }
  }

  lemma StartAfterTurn(s: bytes, values: map<bytes, bytes>, prefix: bytes, rest: bytes, line: bytes)
    requires HasPlaceholder(s) && Rewrite(s, values) == prefix + rest && LEFT !in prefix
    requires Yields(s, values, line)
    ensures prefix <= line
  {
    var n: nat :| Loop(s, values, n) == Some(line);
    LoopTurn(s, values, n);
    LoopKeepsPrefix(prefix, rest, values, n - 1);
  }

  lemma NamedTurn(literal: string, name: string, rest: bytes, values: map<bytes, bytes>)
    requires Unbraced(literal) && Letters(name)
    ensures var s := Ascii(literal) + Hole(name) + rest;
            HasPlaceholder(s) && Rewrite(s, values) == Ascii(literal) + ValueOf(values, Ascii(name)) + rest
  {
    UnbracedIsPlain(literal);
    PassHole(Ascii(literal), Ascii(name), rest, values);
  }

  /** Once the first placeholder has an unknown name, the line starts with the literal and `[UNKNOWN]`. */
  lemma UnknownStart(literal: string, name: string, rest: bytes, values: map<bytes, bytes>, line: bytes)
    requires Unbraced(literal) && Letters(name) && ValueOf(values, Ascii(name)) == UNKNOWN
    requires Yields(Ascii(literal) + Hole(name) + rest, values, line)
    ensures Ascii(literal) + UNKNOWN <= line
  {
    NamedTurn(literal, name, rest, values);
    UnbracedHasNoLeft(literal);
    assert LEFT !in UNKNOWN;
    StartAfterTurn(Ascii(literal) + Hole(name) + rest, values, Ascii(literal) + UNKNOWN, rest, line);
  }

  /** Whatever the loop returns for a REPLY starts with `REPLY [UNKNOWN]`. */
  lemma ReplyStart(m: Message, cfg: Config, line: bytes)
    requires m.kind == REPLY && Encodes(m, cfg, line)
    ensures Ascii("REPLY [UNKNOWN]") <= line
  {
    assert Ascii("REPLY ") + UNKNOWN == Ascii("REPLY [UNKNOWN]");
    var rest := Ascii(" IS ") + Hole("MessageContent") + Hole("dl");
    UnbracedLiterals();
    LetterNames();
    Lookups(m, cfg);
    UnknownStart("REPLY ", "Reply", rest, Values(m, cfg), line);
  }

  predicate BraceFree(m: Message, cfg: Config) {
    LEFT !in m.author && LEFT !in m.text && LEFT !in cfg.username && LEFT !in cfg.secret && LEFT !in cfg.channel
  }

  lemma BraceFreeLiterals()
    ensures LEFT !in Ascii("ERR FROM ") && LEFT !in Ascii("REPLY ") && LEFT !in Ascii("MSG FROM ")
    ensures LEFT !in Ascii("JOIN ") && LEFT !in Ascii("AUTH ") && LEFT !in Ascii("BYE FROM ")
    ensures LEFT !in Ascii(" IS ") && LEFT !in Ascii(" AS ") && LEFT !in Ascii(" USING ")
  {
    UnbracedLiterals();
    UnbracedHasNoLeft("ERR FROM ");
    UnbracedHasNoLeft("REPLY ");
    UnbracedHasNoLeft("MSG FROM ");
    UnbracedHasNoLeft("JOIN ");
    UnbracedHasNoLeft("AUTH ");
    UnbracedHasNoLeft("BYE FROM ");
    UnbracedHasNoLeft(" IS ");
    UnbracedHasNoLeft(" AS ");
    UnbracedHasNoLeft(" USING ");
  }

  lemma LineIsBraceFree(m: Message, cfg: Config)
    requires BraceFree(m, cfg)
    ensures LEFT !in Line(m, cfg)
  {
    BraceFreeLiterals();
    assert LEFT !in UNKNOWN;
  }

  /** For the shipped formats, values without `{` are enough: the loop ends with the line of the format. */
  lemma BraceFreeLine(m: Message, cfg: Config)
    requires Format(m.kind).Some? && BraceFree(m, cfg)
    ensures Encodes(m, cfg, Line(m, cfg))
  {
    LineIsBraceFree(m, cfg);
    NoBraceNoPlaceholder(Line(m, cfg));
    LineReached(m, cfg);
  }

  /** `TCPEncoder::encode`: an unknown type gives the empty string. */
  method Encode(m: Message, cfg: Config) returns (line: bytes)
    requires Format(m.kind).Some? ==> Halts(Format(m.kind).value, Values(m, cfg))
    ensures Format(m.kind).None? ==> line == []
    ensures Format(m.kind).Some? ==> Encodes(m, cfg, line) && (FieldsPlain(m, cfg) ==> line == Line(m, cfg))
  {
    var format := Format(m.kind);
    if format.None? { return []; }
    line := Substitute(format.value, Values(m, cfg));
    if FieldsPlain(m, cfg) { EncodesLine(m, cfg, line); }
  }
}
