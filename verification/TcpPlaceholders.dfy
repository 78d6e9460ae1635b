/** The TCP encoder byte by byte: what a placeholder is, what takes its place, and the lines that are sent. */
module TcpPlaceholders {
  import opened Bytes
  import opened Messages
  import opened TcpEncoder

  /** A digit, a letter or `_`. */
  predicate IsNameByte(b: byte) { 48 <= b <= 57 || 65 <= b <= 90 || 97 <= b <= 122 || b == 95 }

  predicate IsNameOf(key: bytes) { key != [] && forall k :: 0 <= k < |key| ==> IsNameByte(key[k]) }

  /** A name in braces, from `i` to `e`. */
  predicate BracesAt(s: bytes, i: nat, e: nat) {
    i + 1 < e < |s| && s[i] == 123 && s[e] == 125 && forall k :: i < k < e ==> IsNameByte(s[k])
  }

  ghost predicate HoldsBraces(s: bytes) { exists i: nat, e: nat :: BracesAt(s, i, e) }

  lemma BracesAre(s: bytes, i: nat, e: nat)
    ensures BracesAt(s, i, e) <==> IsPlaceholder(s, i, e)
  {
    assert forall b: byte :: IsNameByte(b) <==> IsWord(b);
  }

  /** `regex_search` finds something if and only if there is a non-empty name in braces. */
  lemma PlaceholdersAre(s: bytes)
    ensures HasPlaceholder(s) <==> HoldsBraces(s)
  {
    if HasPlaceholder(s) {
      var i, e := PlaceholderFound(s);
      BracesAre(s, i, e);
    }
    if i: nat, e: nat :| BracesAt(s, i, e) {
      BracesAre(s, i, e);
      FindsPlaceholder(s, i, e);
    }
  }

  /** A turn replaces the first name in braces by its value, or by `[UNKNOWN]`, and leaves the rest. */
  lemma TurnReplaces(before: bytes, key: bytes, after: bytes, values: map<bytes, bytes>)
    requires !HoldsBraces(before) && IsNameOf(key)
    ensures var s := before + ([123] + key + [125]) + after;
            && HasPlaceholder(s)
            && Rewrite(s, values) == before + (if key in values then values[key] else Ascii("[UNKNOWN]")) + after
  {
    PlaceholdersAre(before);
    assert forall k :: 0 <= k < |key| ==> IsWord(key[k]);
    PassHole(before, key, after, values);
  }

  // ------------------------------------------------------------------- what is sent

  /** The lines, with their fields. A REPLY has no value for its result. */
  function SentLine(m: Message, cfg: Config): bytes {
    match m.kind
    case ERR => Ascii("ERR FROM ") + m.author + Ascii(" IS ") + m.text + [13, 10]
    case MSG => Ascii("MSG FROM ") + m.author + Ascii(" IS ") + m.text + [13, 10]
    case BYE => Ascii("BYE FROM ") + m.author + [13, 10]
    case JOIN => Ascii("JOIN ") + cfg.channel + Ascii(" AS ") + m.author + [13, 10]
    case AUTH => Ascii("AUTH ") + cfg.username + Ascii(" AS ") + m.author + Ascii(" USING ") + cfg.secret + [13, 10]
    case REPLY => Ascii("REPLY [UNKNOWN] IS ") + m.text + [13, 10]
    case _ => []
  }

  ghost predicate HoldsNoBraces(m: Message, cfg: Config) {
    match m.kind
    case JOIN => !HoldsBraces(cfg.channel) && !HoldsBraces(m.author)
    case AUTH => !HoldsBraces(cfg.username) && !HoldsBraces(m.author) && !HoldsBraces(cfg.secret)
    case BYE => !HoldsBraces(m.author)
    case REPLY => !HoldsBraces(m.text)
    case _ => !HoldsBraces(m.author) && !HoldsBraces(m.text)
  }

  lemma OneSeparator(a: bytes, b: bytes, c: bytes, d: bytes)
    ensures a + b + c + d == a + b + (c + d)
    ensures a + b + c + d + [13, 10] == a + b + (c + d + [13, 10])
  {
  }

  lemma TwoSeparators(a: bytes, b: bytes, c: bytes, d: bytes, e: bytes, f: bytes)
    ensures a + b + c + d + e + f + [13, 10] == a + b + (c + d + (e + f + [13, 10]))
  {
  }

  lemma SentLineIs(m: Message, cfg: Config)
    ensures SentLine(m, cfg) == Line(m, cfg)
  {
    match m.kind
    case ERR => OneSeparator(Ascii("ERR FROM "), m.author, Ascii(" IS "), m.text);
    case MSG => OneSeparator(Ascii("MSG FROM "), m.author, Ascii(" IS "), m.text);
    case JOIN => OneSeparator(Ascii("JOIN "), cfg.channel, Ascii(" AS "), m.author);
    case AUTH =>
      TwoSeparators(Ascii("AUTH "), cfg.username, Ascii(" AS "), m.author, Ascii(" USING "), cfg.secret);
    case REPLY =>
      OneSeparator(Ascii("REPLY "), Ascii("[UNKNOWN]"), Ascii(" IS "), m.text);
      UnknownWritten();
    case _ =>
  }

  lemma UnknownWritten()
    ensures Ascii("REPLY ") + Ascii("[UNKNOWN]") + Ascii(" IS ") == Ascii("REPLY [UNKNOWN] IS ")
  {
  }

  /** The line goes out as described if and only if no field of it holds a name in braces. */
  lemma LinesSent(m: Message, cfg: Config)
    requires m.kind in {ERR, REPLY, AUTH, JOIN, MSG, BYE}
    ensures Encodes(m, cfg, SentLine(m, cfg)) <==> HoldsNoBraces(m, cfg)
  {
    SentLineIs(m, cfg);
    LineExact(m, cfg);
    PlaceholdersAre(m.author);
    PlaceholdersAre(m.text);
    PlaceholdersAre(cfg.channel);
    PlaceholdersAre(cfg.username);
    PlaceholdersAre(cfg.secret);
  }
}
