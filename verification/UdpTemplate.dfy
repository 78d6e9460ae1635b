/**
 * The template language of the UDP encoder: a scanning automaton, the tokens it
 * recognises, and the loop that rewrites a template in place.
 */
module UdpTemplate {
  import opened Bytes

  const BACKSLASH: byte := '\\' as int
  const LEFT_BRACE: byte := '{' as int
  const RIGHT_BRACE: byte := '}' as int
  const LOWER_X: byte := 'x' as int

  /** `%b`, `%h`, `%i` and `%s`. */
  datatype Width = OneByte | Short | Integer | Text

  /** The automaton's states; the four identical chains for the widths share constructors. */
  datatype Node =
    | Init | Ordinary
    | SubStart | SubType | SubWidth(w: Width) | SubColon(w: Width) | SubId(w: Width) | SubExec(w: Width)
    | SubUndefined | SubUndefinedExec
    | SpecStart | Backslash | Hex | HexNibble | HexByte

  predicate StartsName(b: byte) { IsAlpha(b) || b == '_' as int }

  predicate ContinuesName(b: byte) { IsAlnum(b) || b == '_' as int || b == '-' as int }

  function WidthLetter(w: Width): byte {
    match w
    case OneByte => 'b' as int
    case Short => 'h' as int
    case Integer => 'i' as int
    case Text => 's' as int
  }

  /** The target of the first edge out of `node` that accepts `b`. */
  function Next(node: Node, b: byte): Option<Node> {
    match node
    case Init =>
      if b != BACKSLASH && b != LEFT_BRACE && b != RIGHT_BRACE then Some(Ordinary)
      else if b == LEFT_BRACE then Some(SubStart)
      else if b == BACKSLASH then Some(SpecStart)
      else None
    case SubStart =>
      if b == '%' as int then Some(SubType) else if StartsName(b) then Some(SubUndefined) else None
    case SubType =>
      if b == WidthLetter(OneByte) then Some(SubWidth(OneByte))
      else if b == WidthLetter(Short) then Some(SubWidth(Short))
      else if b == WidthLetter(Integer) then Some(SubWidth(Integer))
      else if b == WidthLetter(Text) then Some(SubWidth(Text))
      else None
    case SubWidth(w) => if b == ':' as int then Some(SubColon(w)) else None
    case SubColon(w) => if StartsName(b) then Some(SubId(w)) else None
    case SubId(w) =>
      if b == RIGHT_BRACE then Some(SubExec(w)) else if ContinuesName(b) then Some(SubId(w)) else None
    case SubUndefined =>
      if ContinuesName(b) then Some(SubUndefined)
      else if b == RIGHT_BRACE then Some(SubUndefinedExec)
      else None
    case SpecStart => if b == LOWER_X then Some(Hex) else if b != BACKSLASH then Some(Backslash) else None
    case Hex => if IsHex(b) then Some(HexNibble) else None
    case HexNibble => if IsHex(b) then Some(HexByte) else None
    case _ => None
  }

  /** The least number of bytes read on the way from `Init` to a node. */
  function Depth(node: Node): nat {
    match node
    case Init => 0
    case Ordinary => 1
    case SubStart => 1
    case SubType => 2
    case SubWidth(_) => 3
    case SubColon(_) => 4
    case SubId(_) => 5
    case SubExec(_) => 6
    case SubUndefined => 2
    case SubUndefinedExec => 3
    case SpecStart => 1
    case Backslash => 2
    case Hex => 2
    case HexNibble => 3
    case HexByte => 4
  }

  /** The node where the automaton stops on `f`, and the number of bytes it took. */
  function Scan(node: Node, f: bytes): (r: (Node, nat))
    ensures r.1 <= |f|
    ensures Depth(r.0) <= Depth(node) + r.1
    decreases |f|
  {
    if f == [] then (node, 0)
    else
      match Next(node, f[0])
      case None => (node, 0)
      case Some(next) => var (end, n) := Scan(next, f[1..]); (end, n + 1)
  }

  datatype Token = Plain(c: byte) | Sub(w: Width, name: bytes) | Code(digits: bytes) | Escape(c: byte)

  /** The token of a node with a translation; `None` where `translationMap.at` throws. */
  function TokenOf(node: Node, text: bytes): (t: Option<Token>)
    requires Depth(node) <= |text|
    ensures t.Some? ==> text != []
  {
    match node
    case Ordinary => Some(Plain(text[0]))
    case Backslash => Some(Escape(text[1]))
    case HexNibble => Some(Code(text[2..]))
    case HexByte => Some(Code(text[2..]))
    case SubExec(w) => Some(Sub(w, text[4..|text| - 1]))
    case _ => None
  }

  function Tokenise(f: bytes): Option<seq<Token>> {
    if f == [] then Some([])
    else
      var (node, n) := Scan(Init, f);
      match TokenOf(node, f[..n])
      case None => None
      case Some(t) =>
        match Tokenise(f[n..])
        case None => None
        case Some(ts) => Some([t] + ts)
  }

  // ---------------------------------------------------------------- the grammar

  function TokenText(t: Token): bytes {
    match t
    case Plain(c) => [c]
    case Sub(w, name) => [LEFT_BRACE, '%' as int, WidthLetter(w), ':' as int] + name + [RIGHT_BRACE]
    case Code(digits) => [BACKSLASH, LOWER_X] + digits
    case Escape(c) => [BACKSLASH, c]
  }

  function TemplateText(ts: seq<Token>): bytes {
    if ts == [] then [] else TokenText(ts[0]) + TemplateText(ts[1..])
  }

  predicate IsName(s: bytes) {
    s != [] && StartsName(s[0]) && forall i :: 1 <= i < |s| ==> ContinuesName(s[i])
  }

  predicate IsToken(t: Token) {
    match t
    case Plain(c) => c != BACKSLASH && c != LEFT_BRACE && c != RIGHT_BRACE
    case Sub(_, name) => IsName(name)
    case Code(digits) => 1 <= |digits| <= 2 && forall i :: 0 <= i < |digits| ==> IsHex(digits[i])
    case Escape(c) => c != LOWER_X && c != BACKSLASH
  }

  /** A one-digit code is not followed by a hexadecimal digit, which would belong to it. */
  predicate Closed(t: Token, rest: bytes) {
    t.Code? && |t.digits| == 1 ==> rest == [] || !IsHex(rest[0])
  }

  predicate IsTemplate(ts: seq<Token>) {
    ts != [] ==> IsToken(ts[0]) && Closed(ts[0], TemplateText(ts[1..])) && IsTemplate(ts[1..])
  }

  function ExecNode(t: Token): Node {
    match t
    case Plain(_) => Ordinary
    case Sub(w, _) => SubExec(w)
    case Code(digits) => if |digits| == 1 then HexNibble else HexByte
    case Escape(_) => Backslash
  }

  lemma ScanStep(node: Node, b: byte, rest: bytes)
    ensures Next(node, b).Some? ==>
      Scan(node, [b] + rest) == (Scan(Next(node, b).value, rest).0, Scan(Next(node, b).value, rest).1 + 1)
    ensures Next(node, b).None? ==> Scan(node, [b] + rest) == (node, 0)
  {
    assert ([b] + rest)[1..] == rest;
  }

  lemma ScanStop(node: Node, rest: bytes)
    requires rest == [] || Next(node, rest[0]).None?
    ensures Scan(node, rest) == (node, 0)
  {
  }

  lemma {:induction false} ScanName(w: Width, name: bytes, rest: bytes)
    requires forall i :: 0 <= i < |name| ==> ContinuesName(name[i])
    ensures Scan(SubId(w), name + ([RIGHT_BRACE] + rest)) == (SubExec(w), |name| + 1)
  {
    if name == [] {
      assert name + ([RIGHT_BRACE] + rest) == [RIGHT_BRACE] + rest;
      ScanStop(SubExec(w), rest);
      ScanStep(SubId(w), RIGHT_BRACE, rest);
    } else {
      ScanName(w, name[1..], rest);
      ScanStep(SubId(w), name[0], name[1..] + ([RIGHT_BRACE] + rest));
      assert name + ([RIGHT_BRACE] + rest) == [name[0]] + (name[1..] + ([RIGHT_BRACE] + rest));
    }
  }

  lemma StepTo(node: Node, b: byte, next: Node, rest: bytes, end: Node, n: nat)
    requires Next(node, b) == Some(next) && Scan(next, rest) == (end, n)
    ensures Scan(node, [b] + rest) == (end, n + 1)
  {
    ScanStep(node, b, rest);
  }

  lemma ScanPast(node: Node, f: bytes, next: Node)
    requires f != [] && Next(node, f[0]) == Some(next)
    ensures var (end, n) := Scan(next, f[1..]); Scan(node, f) == (end, n + 1)
  {
  }

  lemma ScanSecondDigit(g: bytes)
    ensures Scan(HexNibble, g) == if g == [] || !IsHex(g[0]) then (HexNibble, 0) else (HexByte, 1)
  {
    if g == [] || !IsHex(g[0]) {
      ScanStop(HexNibble, g);
    } else {
      ScanPast(HexNibble, g, HexByte);
      ScanStop(HexByte, g[1..]);
    }
  }

  /** After `\x`, the automaton takes one or two hexadecimal digits if they are there. */
  lemma ScanDigits(g: bytes)
    ensures Scan(Hex, g) ==
            if g == [] || !IsHex(g[0]) then (Hex, 0)
            else if |g| == 1 || !IsHex(g[1]) then (HexNibble, 1)
            else (HexByte, 2)
  {
    if g == [] || !IsHex(g[0]) {
      ScanStop(Hex, g);
    } else {
      ScanPast(Hex, g, HexNibble);
      ScanSecondDigit(g[1..]);
    }
  }

  lemma ScanCode(digits: bytes, rest: bytes)
    requires IsToken(Code(digits)) && Closed(Code(digits), rest)
    ensures Scan(Hex, digits + rest) == (ExecNode(Code(digits)), |digits|)
  {
    ScanDigits(digits + rest);
  }

  lemma HeadAndTail(a: bytes, b: bytes)
    requires a != []
    ensures a + b == [a[0]] + (a[1..] + b)
  {
  }

  lemma ScanAfterColon(w: Width, name: bytes, rest: bytes)
    requires IsName(name)
    ensures Scan(SubColon(w), name + ([RIGHT_BRACE] + rest)) == (SubExec(w), |name| + 1)
  {
    ScanName(w, name[1..], rest);
    HeadAndTail(name, [RIGHT_BRACE] + rest);
    StepTo(SubColon(w), name[0], SubId(w), name[1..] + ([RIGHT_BRACE] + rest), SubExec(w), |name|);
  }

  lemma ScanAfterWidth(w: Width, name: bytes, rest: bytes)
    requires IsName(name)
    ensures Scan(SubWidth(w), [':' as int] + (name + ([RIGHT_BRACE] + rest))) == (SubExec(w), |name| + 2)
  {
    ScanAfterColon(w, name, rest);
    StepTo(SubWidth(w), ':' as int, SubColon(w), name + ([RIGHT_BRACE] + rest), SubExec(w), |name| + 1);
  }

  lemma ScanFromBrace(w: Width, s: bytes, n: nat)
    requires Scan(SubWidth(w), s) == (SubExec(w), n)
    ensures Scan(Init, [LEFT_BRACE] + (['%' as int] + ([WidthLetter(w)] + s))) == (SubExec(w), n + 3)
  {
    StepTo(SubType, WidthLetter(w), SubWidth(w), s, SubExec(w), n);
    StepTo(SubStart, '%' as int, SubType, [WidthLetter(w)] + s, SubExec(w), n + 1);
    StepTo(Init, LEFT_BRACE, SubStart, ['%' as int] + ([WidthLetter(w)] + s), SubExec(w), n + 2);
  }

  lemma SubTextParts(w: Width, name: bytes, rest: bytes)
    ensures TokenText(Sub(w, name)) + rest ==
            [LEFT_BRACE] + (['%' as int] + ([WidthLetter(w)] + ([':' as int] + (name + ([RIGHT_BRACE] + rest)))))
  {
  }

  lemma ScanSub(w: Width, name: bytes, rest: bytes)
    requires IsName(name)
    ensures Scan(Init, TokenText(Sub(w, name)) + rest) == (SubExec(w), |name| + 5)
  {
    ScanAfterWidth(w, name, rest);
    ScanFromBrace(w, [':' as int] + (name + ([RIGHT_BRACE] + rest)), |name| + 2);
    SubTextParts(w, name, rest);
  }

  lemma ScanEscape(c: byte, rest: bytes)
    requires IsToken(Escape(c))
    ensures Scan(Init, TokenText(Escape(c)) + rest) == (Backslash, 2)
  {
    ScanStop(Backslash, rest);
    ScanStep(SpecStart, c, rest);
    ScanStep(Init, BACKSLASH, [c] + rest);
    assert TokenText(Escape(c)) + rest == [BACKSLASH] + ([c] + rest);
  }

  lemma ScanHex(digits: bytes, rest: bytes)
    requires IsToken(Code(digits)) && Closed(Code(digits), rest)
    ensures Scan(Init, TokenText(Code(digits)) + rest) == (ExecNode(Code(digits)), |digits| + 2)
  {
    ScanCode(digits, rest);
    ScanStep(SpecStart, LOWER_X, digits + rest);
    ScanStep(Init, BACKSLASH, [LOWER_X] + (digits + rest));
    assert TokenText(Code(digits)) + rest == [BACKSLASH] + ([LOWER_X] + (digits + rest));
  }

  /** The automaton, started on a token's text, stops exactly at its end. */
  lemma ScanToken(t: Token, rest: bytes)
    requires IsToken(t) && Closed(t, rest)
    ensures Scan(Init, TokenText(t) + rest) == (ExecNode(t), |TokenText(t)|)
  {
    match t
    case Plain(c) =>
      ScanStop(Ordinary, rest);
      ScanStep(Init, c, rest);
    case Escape(c) => ScanEscape(c, rest);
    case Code(digits) => ScanHex(digits, rest);
    case Sub(w, name) => ScanSub(w, name, rest);
  }

  lemma TokenOfText(t: Token)
    requires IsToken(t)
    ensures Depth(ExecNode(t)) <= |TokenText(t)| && TokenOf(ExecNode(t), TokenText(t)) == Some(t)
  {
    match t
    case Plain(c) =>
    case Escape(c) =>
    case Code(digits) => assert TokenText(t)[2..] == digits;
    case Sub(w, name) => assert TokenText(t)[4..|TokenText(t)| - 1] == name;
  }

  /** From inside a name, only name characters and the closing brace lead to execution. */
  lemma {:induction false} ScanNameSound(w: Width, f: bytes)
    ensures var (end, n) := Scan(SubId(w), f);
            end == SubId(w) ||
            (end == SubExec(w) && n >= 1 && f[n - 1] == RIGHT_BRACE &&
             forall i :: 0 <= i < n - 1 ==> ContinuesName(f[i]))
  {
    if f != [] && f[0] == RIGHT_BRACE {
      assert Scan(SubExec(w), f[1..]) == (SubExec(w), 0);
    } else if f != [] && ContinuesName(f[0]) {
      ScanNameSound(w, f[1..]);
      var (end, n) := Scan(SubId(w), f[1..]);
      if end == SubExec(w) {
        forall i | 1 <= i < n ensures ContinuesName(f[i]) {
          assert ContinuesName(f[1..][i - 1]);
        }
      }
    }
  }

  /** An undefined substitution never reaches a node with a translation. */
  lemma {:induction false} ScanUndefined(f: bytes)
    ensures var end := Scan(SubUndefined, f).0; end == SubUndefined || end == SubUndefinedExec
  {
    if f != [] && ContinuesName(f[0]) {
      ScanUndefined(f[1..]);
    } else if f != [] && f[0] == RIGHT_BRACE {
      assert Scan(SubUndefinedExec, f[1..]) == (SubUndefinedExec, 0);
    }
  }

  lemma NameSlice(f: bytes, n: nat)
    requires 2 <= n <= |f| && StartsName(f[1]) && forall i :: 0 <= i < n - 2 ==> ContinuesName(f[2..][i])
    ensures IsName(f[1..n])
  {
    var name := f[1..n];
    forall i | 1 <= i < |name| ensures ContinuesName(name[i]) { assert name[i] == f[2..][i - 1]; }
  }

  lemma ScanSubSound(w: Width, f: bytes)
    ensures var (end, n) := Scan(SubWidth(w), f);
            end == SubWidth(w) || end == SubColon(w) || end == SubId(w) ||
            (end == SubExec(w) && n >= 3 && f[0] == ':' as int && IsName(f[1..n - 1]) && f[n - 1] == RIGHT_BRACE)
  {
    if f == [] || f[0] != ':' as int {
      ScanStop(SubWidth(w), f);
    } else {
      ScanPast(SubWidth(w), f, SubColon(w));
      if |f| == 1 || !StartsName(f[1]) {
        ScanStop(SubColon(w), f[1..]);
      } else {
        assert f[1..][1..] == f[2..];
        ScanPast(SubColon(w), f[1..], SubId(w));
        ScanNameSound(w, f[2..]);
        var (end, n) := Scan(SubId(w), f[2..]);
        if end == SubExec(w) {
          assert f[n + 1] == f[2..][n - 1];
          NameSlice(f, n + 1);
        }
      }
    }
  }

  /** The bytes that were taken are a token's text. */
  predicate Took(f: bytes, end: Node, n: nat) {
    n <= |f| && Depth(end) <= n && match TokenOf(end, f[..n])
      case None => true
      case Some(t) => IsToken(t) && TokenText(t) == f[..n] && Closed(t, f[n..])
  }

  lemma ScanThree(f: bytes, w: Width)
    requires 3 <= |f| && f[0] == LEFT_BRACE && f[1] == '%' as int && f[2] == WidthLetter(w)
    ensures var (end, n) := Scan(SubWidth(w), f[3..]); Scan(Init, f) == (end, n + 3)
  {
    assert f[1..][1..] == f[2..] && f[2..][1..] == f[3..];
    ScanPast(SubType, f[2..], SubWidth(w));
    ScanPast(SubStart, f[1..], SubType);
    ScanPast(Init, f, SubStart);
  }

  lemma TookSub(f: bytes, w: Width, n: nat)
    requires 6 <= n <= |f| && f[0] == LEFT_BRACE && f[1] == '%' as int && f[2] == WidthLetter(w) && f[3] == ':' as int
    requires IsName(f[4..n - 1]) && f[n - 1] == RIGHT_BRACE
    ensures Took(f, SubExec(w), n)
  {
    assert f[..n][4..n - 1] == f[4..n - 1];
    assert f[..n] == TokenText(Sub(w, f[4..n - 1]));
  }

  lemma ScanBraceSound(f: bytes)
    requires f != [] && f[0] == LEFT_BRACE
    ensures Took(f, Scan(Init, f).0, Scan(Init, f).1)
  {
    ScanPast(Init, f, SubStart);
    if |f| == 1 || (f[1] != '%' as int && !StartsName(f[1])) {
      ScanStop(SubStart, f[1..]);
    } else if f[1] != '%' as int {
      ScanPast(SubStart, f[1..], SubUndefined);
      ScanUndefined(f[1..][1..]);
    } else {
      assert f[1..][1..] == f[2..];
      ScanPast(SubStart, f[1..], SubType);
      if |f| == 2 || Next(SubType, f[2]).None? {
        ScanStop(SubType, f[2..]);
      } else {
        ScanSubstitution(f, Next(SubType, f[2]).value.w);
      }
    }
  }

  lemma ScanSubstitution(f: bytes, w: Width)
    requires 3 <= |f| && f[0] == LEFT_BRACE && f[1] == '%' as int && f[2] == WidthLetter(w)
    ensures Took(f, Scan(Init, f).0, Scan(Init, f).1)
  {
    ScanThree(f, w);
    ScanSubSound(w, f[3..]);
    var (end, n) := Scan(SubWidth(w), f[3..]);
    if end == SubExec(w) {
      assert f[3..][1..n - 1] == f[4..n + 2] && f[3..][n - 1] == f[n + 2];
      TookSub(f, w, n + 3);
    }
  }

  lemma TookCode(f: bytes, n: nat)
    requires 3 <= n <= 4 && n <= |f| && f[0] == BACKSLASH && f[1] == LOWER_X && forall i :: 2 <= i < n ==> IsHex(f[i])
    requires n == 3 && |f| > 3 ==> !IsHex(f[3])
    ensures Took(f, if n == 3 then HexNibble else HexByte, n)
  {
    var digits := f[2..n];
    assert f[..n][2..] == digits;
    assert f[..n] == [BACKSLASH, LOWER_X] + digits;
  }

  lemma ScanHexSound(f: bytes)
    requires 2 <= |f| && f[0] == BACKSLASH && f[1] == LOWER_X
    ensures Took(f, Scan(Init, f).0, Scan(Init, f).1)
  {
    assert f[1..][1..] == f[2..];
    ScanPast(Init, f, SpecStart);
    ScanPast(SpecStart, f[1..], Hex);
    ScanDigits(f[2..]);
    if |f| > 2 && IsHex(f[2]) { TookCode(f, if |f| == 3 || !IsHex(f[3]) then 3 else 4); }
  }

  lemma ScanBackslashSound(f: bytes)
    requires f != [] && f[0] == BACKSLASH
    ensures Took(f, Scan(Init, f).0, Scan(Init, f).1)
  {
    if |f| > 1 && f[1] == LOWER_X {
      ScanHexSound(f);
    } else {
      ScanPast(Init, f, SpecStart);
      if |f| == 1 || f[1] == BACKSLASH {
        ScanStop(SpecStart, f[1..]);
      } else {
        ScanPast(SpecStart, f[1..], Backslash);
        ScanStop(Backslash, f[1..][1..]);
        assert f[..2] == [f[0], f[1]];
      }
    }
  }

  /** Whatever the automaton takes off the front as a token is that token's text. */
  lemma ScanSound(f: bytes)
    requires f != []
    ensures var (end, n) := Scan(Init, f);
            TokenOf(end, f[..n]).Some? ==>
              var t := TokenOf(end, f[..n]).value; IsToken(t) && TokenText(t) == f[..n] && Closed(t, f[n..])
  {
    if f[0] == LEFT_BRACE {
      ScanBraceSound(f);
    } else if f[0] == BACKSLASH {
      ScanBackslashSound(f);
    } else if f[0] != RIGHT_BRACE {
      ScanStop(Ordinary, f[1..]);
    }
  }

  lemma {:induction false} TokeniseComplete(ts: seq<Token>)
    requires IsTemplate(ts)
    ensures Tokenise(TemplateText(ts)) == Some(ts)
  {
    if ts != [] {
      var t, rest := ts[0], TemplateText(ts[1..]);
      var f, n := TokenText(t) + rest, |TokenText(t)|;
      ScanToken(t, rest);
      TokenOfText(t);
      TokeniseComplete(ts[1..]);
      assert f[..n] == TokenText(t) && f[n..] == rest;
      assert [t] + ts[1..] == ts;
    }
  }

  lemma TemplateCons(t: Token, ts: seq<Token>)
    requires IsToken(t) && Closed(t, TemplateText(ts)) && IsTemplate(ts)
    ensures IsTemplate([t] + ts) && TemplateText([t] + ts) == TokenText(t) + TemplateText(ts)
  {
    assert ([t] + ts)[1..] == ts;
  }

  lemma FirstToken(f: bytes) returns (t: Token, n: nat)
    requires f != [] && Tokenise(f).Some?
    ensures 0 < n <= |f| && IsToken(t) && TokenText(t) == f[..n] && Closed(t, f[n..])
    ensures Tokenise(f[n..]).Some? && Tokenise(f).value == [t] + Tokenise(f[n..]).value
  {
    ScanSound(f);
    n := Scan(Init, f).1;
    t := TokenOf(Scan(Init, f).0, f[..n]).value;
  }

  lemma {:induction false} TokeniseSound(f: bytes)
    requires Tokenise(f).Some?
    ensures IsTemplate(Tokenise(f).value) && TemplateText(Tokenise(f).value) == f
    decreases |f|
  {
    if f != [] {
      var t, n := FirstToken(f);
      TokeniseSound(f[n..]);
      TemplateCons(t, Tokenise(f[n..]).value);
      assert f[..n] + f[n..] == f;
    }
  }

  /**
   * Scanning with the automaton recognises exactly the template language: a text
   * yields a token sequence if and only if it is the text of that sequence.
   */
  lemma TokeniseExact(f: bytes, ts: seq<Token>)
    ensures Tokenise(f) == Some(ts) <==> IsTemplate(ts) && TemplateText(ts) == f
  {
    if Tokenise(f) == Some(ts) {
      TokeniseSound(f);
    } else if IsTemplate(ts) && TemplateText(ts) == f {
      TokeniseComplete(ts);
    }
  }

  // ------------------------------------------------------------ interpretation

  datatype Value = Number(n: nat) | String(s: bytes)

  /** `BadVariant` is the exception that the encoder does not catch. */
  datatype Rendered = Data(data: bytes) | OutOfRange | BadVariant

  function NumberBytes(w: Width, n: nat): bytes {
    match w
    case OneByte => [n % 256]
    case Short => [n / 256 % 256, n % 256]
    case _ => [n % 256, n / 256 % 256, n / 0x1_0000 % 256, n / 0x100_0000 % 256]
  }

  function HexNumber(digits: bytes): nat {
    if digits == [] then 0 else HexNumber(digits[..|digits| - 1]) * 16 + HexValue(digits[|digits| - 1])
  }

  /** What replaces a token. `bytes('\\')` builds 92 zero bytes, not a backslash. */
  function Substitute(t: Token, values: map<bytes, Value>): Rendered {
    match t
    case Plain(c) => Data([c])
    case Escape(_) => Data(seq(92, i => 0))
    case Code(digits) => Data([HexNumber(digits) % 256])
    case Sub(w, name) =>
      if name !in values then OutOfRange
      else if w == Text then
        if values[name].String? then Data(values[name].s) else BadVariant
      else
        if values[name].Number? then Data(NumberBytes(w, values[name].n)) else BadVariant
  }

  /** Map each token and concatenate; the first failure wins. */
  function Assemble(ts: seq<Token>, values: map<bytes, Value>): Rendered {
    if ts == [] then Data([])
    else
      match Substitute(ts[0], values)
      case Data(d) => Prepend(d, Assemble(ts[1..], values))
      case failure => failure
  }

  function Prepend(d: bytes, r: Rendered): Rendered {
    if r.Data? then Data(d + r.data) else r
  }

  /** What the remaining template becomes, one scanned token at a time. */
  function Render(f: bytes, values: map<bytes, Value>): Rendered {
    if f == [] then Data([])
    else
      var (node, n) := Scan(Init, f);
      match TokenOf(node, f[..n])
      case None => OutOfRange
      case Some(t) =>
        match Substitute(t, values)
        case Data(d) => Prepend(d, Render(f[n..], values))
        case failure => failure
  }

  /**
   * Tokenising once and mapping the tokens gives the encoder's result; a text
   * outside the template language gives none.
   */
  lemma {:induction false} RenderIsTokenwise(f: bytes, values: map<bytes, Value>)
    ensures Tokenise(f).Some? ==> Render(f, values) == Assemble(Tokenise(f).value, values)
    ensures Tokenise(f).None? ==> !Render(f, values).Data?
    decreases |f|
  {
    if f != [] {
      var (node, n) := Scan(Init, f);
      match TokenOf(node, f[..n])
      case None =>
      case Some(t) =>
        RenderIsTokenwise(f[n..], values);
        if Tokenise(f).Some? {
          assert Tokenise(f).value[1..] == Tokenise(f[n..]).value;
        }
    }
  }

  /** The inner loop: follow the automaton from `it` until no edge accepts. */
  method ScanFrom(format: bytes, it: nat) returns (node: Node, scan: nat)
    requires it < |format|
    ensures it <= scan <= |format|
    ensures Scan(Init, format[it..]) == (node, scan - it)
  {
    node, scan := Init, it;
    while true
      invariant it <= scan < |format|
      invariant Scan(Init, format[it..]) ==
                (Scan(node, format[scan..]).0, Scan(node, format[scan..]).1 + (scan - it))
      decreases |format| - scan
    {
      assert format[scan..][1..] == format[scan + 1..];
      var next := Next(node, format[scan]);
      if next.None? { break; }
      node, scan := next.value, scan + 1;
      if scan == |format| { break; }
    }
  }

  lemma RenderStep(f: bytes, values: map<bytes, Value>, t: Token, d: bytes)
    requires f != []
    requires TokenOf(Scan(Init, f).0, f[..Scan(Init, f).1]) == Some(t)
    requires Substitute(t, values) == Data(d)
    ensures Render(f, values) == Prepend(d, Render(f[Scan(Init, f).1..], values))
  {
  }

  lemma PrependTwice(a: bytes, b: bytes, r: Rendered)
    ensures Prepend(a, Prepend(b, r)) == Prepend(a + b, r)
  {
    if r.Data? { assert a + (b + r.data) == (a + b) + r.data; }
  }

  /** One turn of the loop, on the buffer as it was. */
  lemma ExpandStep(format: bytes, it: nat, scan: nat, values: map<bytes, Value>, t: Token, d: bytes)
    requires it < |format| && it <= scan <= |format| && Scan(Init, format[it..]).1 == scan - it
    requires TokenOf(Scan(Init, format[it..]).0, format[it..][..scan - it]) == Some(t)
    requires Substitute(t, values) == Data(d)
    ensures Prepend(format[..it], Render(format[it..], values)) ==
            Prepend(format[..it] + d, Render(format[scan..], values))
  {
    RenderStep(format[it..], values, t, d);
    assert format[it..][scan - it..] == format[scan..];
    PrependTwice(format[..it], d, Render(format[scan..], values));
  }

  /** A turn that fails gives the failure. */
  lemma ExpandStops(format: bytes, it: nat, scan: nat, values: map<bytes, Value>)
    requires it < |format| && it <= scan <= |format| && Scan(Init, format[it..]).1 == scan - it
    ensures var t := TokenOf(Scan(Init, format[it..]).0, format[it..][..scan - it]);
            var r := Prepend(format[..it], Render(format[it..], values));
            && (t.None? ==> r == OutOfRange)
            && (t.Some? && !Substitute(t.value, values).Data? ==> r == Substitute(t.value, values))
  {
  }

  /** What erasing the token and inserting its replacement leaves before and after the new position. */
  lemma EraseInsert(format: bytes, it: nat, scan: nat, data: bytes)
    requires it <= scan <= |format|
    ensures var erased := format[..it] + format[scan..];
            var inserted := erased[..it] + data + erased[it..];
            inserted[..it + |data|] == format[..it] + data && inserted[it + |data|..] == format[scan..]
  {
    var erased := format[..it] + format[scan..];
    assert erased[..it] == format[..it] && erased[it..] == format[scan..];
  }

  /** The encoder's loop: scan a token at `it`, erase it, insert its replacement, step over that. */
  method Expand(template: bytes, values: map<bytes, Value>) returns (r: Rendered)
    ensures r == Render(template, values)
  {
    var format := template;
    var it := 0;
    while it != |format|
      invariant 0 <= it <= |format|
      invariant Render(template, values) == Prepend(format[..it], Render(format[it..], values))
      decreases |format| - it
    {
      var node, scan := ScanFrom(format, it);
      assert format[it..][..scan - it] == format[it..scan];
      var token := TokenOf(node, format[it..scan]);
      ExpandStops(format, it, scan, values);
      if token.None? { return OutOfRange; }
      var result := Substitute(token.value, values);
      if !result.Data? { return result; }
      ExpandStep(format, it, scan, values, token.value, result.data);
      EraseInsert(format, it, scan, result.data);
      format := format[..it] + format[scan..];
      format := format[..it] + result.data + format[it..];
      it := it + |result.data|;
    }
    assert format[it..] == [] && format[..it] == format;
    r := Data(format);
  }
}
