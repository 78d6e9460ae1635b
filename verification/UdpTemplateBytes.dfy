/** The template language byte by byte: which texts are templates, and what each token stands for. */
module UdpTemplateBytes {
  import opened Bytes
  import opened UdpTemplate

  predicate IsLetter(b: byte) { 65 <= b <= 90 || 97 <= b <= 122 }

  predicate IsNumeral(b: byte) { 48 <= b <= 57 }

  predicate IsHexNumeral(b: byte) { 48 <= b <= 57 || 65 <= b <= 70 || 97 <= b <= 102 }

  /** A letter or `_`, and then letters, digits, `_` and `-`. */
  predicate IsIdentifier(s: bytes) {
    && s != [] && (IsLetter(s[0]) || s[0] == 95)
    && forall i :: 1 <= i < |s| ==> IsLetter(s[i]) || IsNumeral(s[i]) || s[i] == 95 || s[i] == 45
  }

  predicate IsGood(t: Token) {
    match t
    case Plain(c) => c != 92 && c != 123 && c != 125
    case Escape(c) => c != 120 && c != 92
    case Sub(_, name) => IsIdentifier(name)
    case Code(digits) => 1 <= |digits| <= 2 && forall i :: 0 <= i < |digits| ==> IsHexNumeral(digits[i])
  }

  function Spelling(t: Token): bytes {
    match t
    case Plain(c) => [c]
    case Escape(c) => Ascii("\\") + [c]
    case Code(digits) => Ascii("\\x") + digits
    case Sub(OneByte, name) => Ascii("{%b:") + name + Ascii("}")
    case Sub(Short, name) => Ascii("{%h:") + name + Ascii("}")
    case Sub(Integer, name) => Ascii("{%i:") + name + Ascii("}")
    case Sub(Text, name) => Ascii("{%s:") + name + Ascii("}")
  }

  function Spellings(ts: seq<Token>): bytes {
    if ts == [] then [] else Spelling(ts[0]) + Spellings(ts[1..])
  }

  /** A code of one digit must not be followed by what would be its second. */
  predicate AreGood(ts: seq<Token>) {
    ts != [] ==>
      && IsGood(ts[0]) && AreGood(ts[1..])
      && (ts[0].Code? && |ts[0].digits| == 1 && Spellings(ts[1..]) != [] ==> !IsHexNumeral(Spellings(ts[1..])[0]))
  }

  lemma GoodIsToken(t: Token)
    ensures IsGood(t) <==> IsToken(t)
  {
    match t
    case Plain(c) =>
    case Escape(c) =>
    case Code(digits) =>
    case Sub(w, name) =>
      if name != [] {
        assert StartsName(name[0]) <==> IsLetter(name[0]) || name[0] == 95;
        assert forall i :: 1 <= i < |name| ==>
          (ContinuesName(name[i]) <==> IsLetter(name[i]) || IsNumeral(name[i]) || name[i] == 95 || name[i] == 45);
      }
  }

  lemma OpeningIs(w: Width)
    ensures [LEFT_BRACE, '%' as int, WidthLetter(w), ':' as int] ==
            Ascii(match w { case OneByte => "{%b:" case Short => "{%h:" case Integer => "{%i:" case Text => "{%s:" })
    ensures [RIGHT_BRACE] == Ascii("}")
  {
  }

  lemma SpecialIs()
    ensures [BACKSLASH] == Ascii("\\") && [BACKSLASH, LOWER_X] == Ascii("\\x")
  {
  }

  lemma SpellingIsText(t: Token)
    ensures Spelling(t) == TokenText(t)
  {
    SpecialIs();
    match t
    case Plain(_) =>
    case Code(_) =>
    case Escape(c) => assert [BACKSLASH] + [c] == [BACKSLASH, c];
    case Sub(w, _) => OpeningIs(w);
  }

  lemma {:induction false} SpellingsAreText(ts: seq<Token>)
    ensures Spellings(ts) == TemplateText(ts)
  {
    if ts != [] {
      SpellingIsText(ts[0]);
      SpellingsAreText(ts[1..]);
    }
  }

  lemma {:induction false} GoodIsTemplate(ts: seq<Token>)
    ensures AreGood(ts) <==> IsTemplate(ts)
  {
    if ts != [] {
      GoodIsToken(ts[0]);
      GoodIsTemplate(ts[1..]);
      SpellingsAreText(ts[1..]);
    }
  }

  /** A text is read as a sequence of tokens if and only if the tokens are good and it spells them. */
  lemma TemplatesRead(f: bytes, ts: seq<Token>)
    ensures Tokenise(f) == Some(ts) <==> AreGood(ts) && f == Spellings(ts)
  {
    TokeniseExact(f, ts);
    GoodIsTemplate(ts);
    SpellingsAreText(ts);
  }

  // ------------------------------------------------------------- what tokens stand for

  function HexDigit(b: byte): nat
    requires IsHexNumeral(b)
  {
    if b <= 57 then b - 48 else if b <= 70 then b - 55 else b - 87
  }

  /** Plain bytes stand for themselves, escapes for 92 zero bytes, codes for the byte they spell. */
  lemma LiteralsMean(c: byte, a: byte, b: byte, values: map<bytes, Value>)
    ensures Substitute(Plain(c), values) == Data([c])
    ensures var r := Substitute(Escape(c), values);
            r.Data? && |r.data| == 92 && forall i :: 0 <= i < 92 ==> r.data[i] == 0
    ensures IsHexNumeral(a) ==> Substitute(Code([a]), values) == Data([HexDigit(a)])
    ensures IsHexNumeral(a) && IsHexNumeral(b) ==>
            Substitute(Code([a, b]), values) == Data([16 * HexDigit(a) + HexDigit(b)])
  {
    assert [a][..0] == [] && [a, b][..1] == [a];
    assert HexNumber([a]) == HexNumber([]) * 16 + HexValue(a);
    assert HexNumber([a, b]) == HexNumber([a]) * 16 + HexValue(b);
  }

  /** Names stand for the bytes of a number, most significant first but for `%i`, or for a string. */
  lemma NamesMean(name: bytes, n: nat, s: bytes, values: map<bytes, Value>)
    ensures name !in values ==> forall w :: Substitute(Sub(w, name), values) == OutOfRange
    ensures name in values && values[name] == String(s) ==>
            && Substitute(Sub(Text, name), values) == Data(s)
            && forall w :: w != Text ==> Substitute(Sub(w, name), values) == BadVariant
    ensures name in values && values[name] == Number(n) ==>
            && Substitute(Sub(Text, name), values) == BadVariant
            && (n < 0x100 ==> Substitute(Sub(OneByte, name), values) == Data([n]))
            && (n < 0x1_0000 ==> Substitute(Sub(Short, name), values) == Data([n / 256, n % 256]))
            && Substitute(Sub(Integer, name), values) ==
               Data([n % 256, n / 256 % 256, n / 65536 % 256, n / 16777216 % 256])
  {
  }
}
